/**
 * pkg/kubeutil/token.go: ServiceAccountToken asks the control plane for a
 * ServiceAccount token, once at once and then on every 2-second tick, until
 * an attempt succeeds or the context is done.
 *
 * The ticker, the context and Go's `select` are an input trace of events;
 * when both are ready Go picks one at random, and the trace records the pick.
 */
module Token {
  import opened Wrappers
  import opened Text
  import opened Errors
  import opened Exec
  import opened Runner

  const TokenRequestBody := "{\"apiVersion\":\"authentication.k8s.io/v1\",\"kind\":\"TokenRequest\"}"

  function TokenPath(ns: string, sa: string): string {
    "/api/v1/namespaces/" + ns + "/serviceaccounts/" + sa + "/token"
  }

  function TokenArgs(ns: string, sa: string): seq<string> {
    ["create", "--raw", TokenPath(ns, sa), "-f", "-"]
  }

  /** The command every attempt hands to the runner. */
  function TokenRequest(host: Host, ns: string, sa: string): Request {
    CommandRequest(host, "kubectl", TokenArgs(ns, sa)).(stdin := Some(TokenRequestBody))
  }

  /** Every attempt runs `kubectl create --raw <path> -f -` with the TokenRequest body on stdin. */
  lemma TokenRequestShape(host: Host, ns: string, sa: string)
    ensures TokenRequest(host, ns, sa).args ==
      ["kubectl", "create", "--raw", "/api/v1/namespaces/" + ns + "/serviceaccounts/" + sa + "/token", "-f", "-"]
    ensures TokenRequest(host, ns, sa).stdin == Some("{\"apiVersion\":\"authentication.k8s.io/v1\",\"kind\":\"TokenRequest\"}")
    ensures TokenRequest(host, ns, sa).env == [] && TokenRequest(host, ns, sa).dir == ""
  {
  }

  /**
   * json.Unmarshal of the response into {status: {token}}: the token field
   * ("" when the field is missing) or the decoder's error.
   */
  type Decoder = string -> Result<string, Cause>

  /** The validation tryOnce applies to the runner's reply. */
  function Classify(reply: RunResult, decode: Decoder, ns: string, sa: string): (r: Result<string, Error>)
    ensures r.Ok? ==> r.value != ""
    ensures r.Err? ==> !r.error.ContextDone?
  {
    if reply.err.Some? then Err(TokenRequestFailed(ns, sa, reply.err.value))
    else match decode(reply.stdout)
      case Err(cause) => Err(TokenParseFailed(cause, reply.stdout))
      case Ok(token) => if token == "" then Err(TokenEmpty) else Ok(token)
  }

  /**
   * An attempt succeeds exactly when the run succeeds, the body decodes and
   * the token is non-empty; a decoded empty token is "token is empty".
   */
  lemma AttemptSucceedsIff(reply: RunResult, decode: Decoder, ns: string, sa: string)
    ensures var r := Classify(reply, decode, ns, sa);
      && (r.Ok? <==> reply.err.None? && decode(reply.stdout).Ok? && decode(reply.stdout).value != "")
      && (r.Ok? ==> r.value == decode(reply.stdout).value)
      && (reply.err.Some? ==> r == Err(TokenRequestFailed(ns, sa, reply.err.value)))
      && (reply.err.None? && decode(reply.stdout).Err? ==> r == Err(TokenParseFailed(decode(reply.stdout).error, reply.stdout)))
      && (reply.err.None? && decode(reply.stdout) == Ok("") ==> r == Err(TokenEmpty))
  {
  }

  /** The outcome of the k-th attempt. */
  function Attempts(r: CmdRunner, host: Host, decode: Decoder, ns: string, sa: string): nat -> Result<string, Error> {
    (k: nat) => Classify(Reply(r, TokenRequest(host, ns, sa), host, k), decode, ns, sa)
  }

  /** tryOnce (token.go:44-64), as the k-th attempt. */
  method TryOnce(r: CmdRunner, host: Host, decode: Decoder, ns: string, sa: string, k: nat) returns (res: Result<string, Error>)
    requires !r.Nil?
    ensures res == Attempts(r, host, decode, ns, sa)(k)
  {
    var cmd := new Cmd.Command(host, "kubectl", ["create", "--raw", TokenPath(ns, sa), "-f", "-"]);
    cmd.stdin := Some(TokenRequestBody);

    var stdout, err := Call(r, cmd, host, k);
    if err.Some? {
      return Err(TokenRequestFailed(ns, sa, err.value));
    }
    var tr := decode(stdout);
    if tr.Err? {
      return Err(TokenParseFailed(tr.error, stdout));
    }
    if tr.value == "" {
      return Err(TokenEmpty);
    }
    return Ok(tr.value);
  }

  // -----------------------------------------------------------------------
  // The polling state machine

  /** What the `select` receives: a tick, or the context's done signal. */
  datatype Event = Tick | Done(reason: CtxError)

  /** The context: ctx.Err() on entry, then the events the loop would receive. */
  datatype Context = Context(entry: Option<CtxError>, events: seq<Event>)

  /** How a poll ends: a return, or still waiting when the trace runs out. */
  datatype Ended = Returned(result: Result<string, Error>) | StillWaiting

  /** A poll's end, the runner calls it made and the events it consumed. */
  datatype PollRun = PollRun(ended: Ended, calls: nat, consumed: nat)

  /** The `for { select { ... } }` loop from event i on, having made `calls` attempts. */
  function Loop(events: seq<Event>, i: nat, attempt: nat -> Result<string, Error>, calls: nat, lastErr: Option<Error>): PollRun
    requires i <= |events|
    decreases |events| - i
  {
    if i == |events| then PollRun(StillWaiting, calls, i)
    else match events[i]
      case Done(reason) =>
        var e := if lastErr.Some? then lastErr.value else ContextDone(reason);
        PollRun(Returned(Err(e)), calls, i + 1)
      case Tick =>
        var a := attempt(calls);
        if a.Ok? then PollRun(Returned(a), calls + 1, i + 1)
        else Loop(events, i + 1, attempt, calls + 1, Some(a.error))
  }

  /** ServiceAccountToken as a function of the context and the attempts' outcomes. */
  function Poll(entry: Option<CtxError>, events: seq<Event>, attempt: nat -> Result<string, Error>): PollRun {
    if entry.Some? then PollRun(Returned(Err(ContextDone(entry.value))), 0, 0)
    else
      var first := attempt(0);
      if first.Ok? then PollRun(Returned(first), 1, 0)
      else Loop(events, 0, attempt, 1, Some(first.error))
  }

  /** ServiceAccountToken (token.go:30-89). */
  method ServiceAccountToken(ctx: Context, r: CmdRunner, host: Host, decode: Decoder, ns: string, sa: string)
    returns (ended: Ended, ghost calls: nat, ghost consumed: nat)
    ensures PollRun(ended, calls, consumed) == Poll(ctx.entry, ctx.events, Attempts(Resolve(r), host, decode, ns, sa))
    ensures ended.Returned? && ended.result.Ok? ==> ended.result.value != ""
    ensures ctx.entry.None? && ended.Returned? && ended.result.Err? ==> !ended.result.error.ContextDone?
  {
    var runner := r;
    if runner.Nil? {
      runner := Default;
    }
    ghost var attempt := Attempts(runner, host, decode, ns, sa);
    AttemptsNeverEmpty(runner, host, decode, ns, sa);
    PollEndsWell(ctx.entry, ctx.events, attempt);

    if ctx.entry.Some? {
      return Returned(Err(ContextDone(ctx.entry.value))), 0, 0;
    }

    var lastErr: Option<Error> := None;
    var n := 0;  // attempts made so far: the host's clock for the runner's replies

    var first := TryOnce(runner, host, decode, ns, sa, n);
    n := n + 1;
    if first.Ok? {
      return Returned(first), n, 0;
    }
    lastErr := Some(first.error);

    var i := 0;
    while i < |ctx.events|
      invariant 0 <= i <= |ctx.events|
      invariant lastErr.Some?
      invariant Loop(ctx.events, i, attempt, n, lastErr) == Poll(ctx.entry, ctx.events, attempt)
      decreases |ctx.events| - i
    {
      match ctx.events[i]
      case Done(reason) =>
        if lastErr.None? {
          lastErr := Some(ContextDone(reason));
        }
        return Returned(Err(lastErr.value)), n, i + 1;
      case Tick =>
        var res := TryOnce(runner, host, decode, ns, sa, n);
        n := n + 1;
        if res.Ok? {
          return Returned(res), n, i + 1;
        }
        lastErr := Some(res.error);
        i := i + 1;
    }
    return StillWaiting, n, i;
  }

  // -----------------------------------------------------------------------
  // Properties of the state machine

  /** Number of ticks in a stretch of the trace. */
  function CountTicks(s: seq<Event>): nat {
    if s == [] then 0 else (if s[0].Tick? then 1 else 0) + CountTicks(s[1..])
  }

  /** A context that is done on entry ends the poll with its error and no runner call. */
  lemma PollPrecheck(entry: Option<CtxError>, events: seq<Event>, attempt: nat -> Result<string, Error>)
    requires entry.Some?
    ensures Poll(entry, events, attempt) == PollRun(Returned(Err(ContextDone(entry.value))), 0, 0)
  {
  }

  /** A first attempt that succeeds is returned before any event is read. */
  lemma PollEagerSuccess(events: seq<Event>, attempt: nat -> Result<string, Error>)
    requires attempt(0).Ok?
    ensures Poll(None, events, attempt) == PollRun(Returned(attempt(0)), 1, 0)
  {
  }

  lemma {:induction false} LoopAccounting(events: seq<Event>, i: nat, attempt: nat -> Result<string, Error>, calls: nat, lastErr: Option<Error>)
    requires i <= |events|
    ensures var p := Loop(events, i, attempt, calls, lastErr);
      i <= p.consumed <= |events| && p.calls == calls + CountTicks(events[i..p.consumed])
    decreases |events| - i
  {
    if i < |events| {
      var p := Loop(events, i, attempt, calls, lastErr);
      match events[i]
      case Done(_) =>
        assert events[i..i + 1] == [events[i]];
      case Tick =>
        var a := attempt(calls);
        if a.Ok? {
          assert events[i..i + 1] == [events[i]];
        } else {
          LoopAccounting(events, i + 1, attempt, calls + 1, Some(a.error));
          assert events[i..p.consumed][1..] == events[i + 1..p.consumed];
        }
    }
  }

  /** Attempts are sequential: one at once, then one per tick consumed, and nothing else. */
  lemma PollAccounting(events: seq<Event>, attempt: nat -> Result<string, Error>)
    ensures var p := Poll(None, events, attempt);
      p.consumed <= |events| && p.calls == 1 + CountTicks(events[..p.consumed])
  {
    var first := attempt(0);
    if first.Err? {
      LoopAccounting(events, 0, attempt, 1, Some(first.error));
      var p := Poll(None, events, attempt);
      assert events[0..p.consumed] == events[..p.consumed];
    }
  }

  lemma {:induction false} LoopReturns(events: seq<Event>, i: nat, attempt: nat -> Result<string, Error>, calls: nat, lastErr: Option<Error>)
    requires i <= |events|
    requires lastErr.Some?
    ensures var p := Loop(events, i, attempt, calls, lastErr);
      && calls <= p.calls
      && i <= p.consumed <= |events|
      && (forall k :: calls <= k < p.calls - 1 ==> attempt(k).Err?)
      && (p.ended.StillWaiting? ==> p.consumed == |events| && (p.calls > calls ==> attempt(p.calls - 1).Err?))
      && (p.ended.Returned? ==> i < p.consumed)
      && (p.ended.Returned? && p.ended.result.Ok? ==>
            p.calls > calls && attempt(p.calls - 1) == p.ended.result && events[p.consumed - 1].Tick?)
      && (p.ended.Returned? && p.ended.result.Err? ==>
            && events[p.consumed - 1].Done?
            && (p.calls > calls ==> attempt(p.calls - 1).Err?)
            && p.ended.result.error == (if p.calls > calls then attempt(p.calls - 1).error else lastErr.value))
    decreases |events| - i
  {
    if i < |events| && events[i].Tick? && attempt(calls).Err? {
      LoopReturns(events, i + 1, attempt, calls + 1, Some(attempt(calls).error));
    }
  }

  /**
   * A poll that was entered returns the most recent attempt: its token on
   * success, its error on Done (never an aggregate, never the context's own
   * error); every earlier attempt failed.
   */
  lemma PollReturnsLastAttempt(entry: Option<CtxError>, events: seq<Event>, attempt: nat -> Result<string, Error>)
    ensures var p := Poll(entry, events, attempt);
      entry.None? ==>
        && p.calls >= 1
        && (forall k :: 0 <= k < p.calls - 1 ==> attempt(k).Err?)
        && (p.ended.Returned? && p.ended.result.Ok? ==> attempt(p.calls - 1) == p.ended.result)
        && (p.ended.Returned? && p.ended.result.Err? ==>
              && 1 <= p.consumed <= |events|
              && events[p.consumed - 1].Done?
              && attempt(p.calls - 1) == p.ended.result)
        && (p.ended.StillWaiting? ==> attempt(p.calls - 1).Err?)
  {
    if entry.None? && attempt(0).Err? {
      LoopReturns(events, 0, attempt, 1, Some(attempt(0).error));
    }
  }

  lemma {:induction false} LoopFailuresThenSuccess(events: seq<Event>, i: nat, attempt: nat -> Result<string, Error>, calls: nat, lastErr: Option<Error>, n: nat)
    requires i + n < |events|
    requires forall j :: i <= j <= i + n ==> events[j] == Tick
    requires forall k :: calls <= k < calls + n ==> attempt(k).Err?
    requires attempt(calls + n).Ok?
    ensures Loop(events, i, attempt, calls, lastErr) == PollRun(Returned(attempt(calls + n)), calls + n + 1, i + n + 1)
    decreases n
  {
    assert events[i] == Tick;
    if n > 0 {
      assert attempt(calls).Err?;
      LoopFailuresThenSuccess(events, i + 1, attempt, calls + 1, Some(attempt(calls).error), n - 1);
    }
  }

  /**
   * If attempts 0..N-1 fail, attempt N succeeds, and the first N events are
   * ticks, the poll returns attempt N's token after exactly N+1 runner calls.
   */
  lemma PollFailuresThenSuccess(events: seq<Event>, attempt: nat -> Result<string, Error>, n: nat)
    requires n <= |events|
    requires forall j :: 0 <= j < n ==> events[j] == Tick
    requires forall k :: 0 <= k < n ==> attempt(k).Err?
    requires attempt(n).Ok?
    ensures Poll(None, events, attempt) == PollRun(Returned(attempt(n)), n + 1, n)
  {
    if n > 0 {
      assert attempt(0).Err?;
      LoopFailuresThenSuccess(events, 0, attempt, 1, Some(attempt(0).error), n - 1);
    }
  }

  /** No attempt yields an empty token or a context error. */
  ghost predicate AttemptsWellFormed(attempt: nat -> Result<string, Error>) {
    forall k: nat :: (attempt(k).Ok? ==> attempt(k).value != "") && (attempt(k).Err? ==> !attempt(k).error.ContextDone?)
  }

  /** ServiceAccountToken's attempts never yield an empty token or a context error. */
  lemma AttemptsNeverEmpty(r: CmdRunner, host: Host, decode: Decoder, ns: string, sa: string)
    ensures AttemptsWellFormed(Attempts(r, host, decode, ns, sa))
  {
  }

  /**
   * With such attempts, a poll never returns an empty token, and once entered
   * it never returns the context's own error.
   */
  lemma PollEndsWell(entry: Option<CtxError>, events: seq<Event>, attempt: nat -> Result<string, Error>)
    requires AttemptsWellFormed(attempt)
    ensures var p := Poll(entry, events, attempt);
      && (p.ended.Returned? && p.ended.result.Ok? ==> p.ended.result.value != "")
      && (entry.None? && p.ended.Returned? && p.ended.result.Err? ==> !p.ended.result.error.ContextDone?)
  {
    PollReturnsLastAttempt(entry, events, attempt);
    var p := Poll(entry, events, attempt);
    if entry.None? {
      assert attempt(p.calls - 1).Ok? ==> attempt(p.calls - 1).value != "";
      assert attempt(p.calls - 1).Err? ==> !attempt(p.calls - 1).error.ContextDone?;
    }
  }
}
