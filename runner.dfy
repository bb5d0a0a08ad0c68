/**
 * pkg/kubeutil/runner.go: DefaultRunner.Run rebuilds the caller's command
 * as a context-bound one, runs it with separate stdout and stderr buffers,
 * and turns the outcome into (stdout, error).
 */
module Runner {
  import opened Wrappers
  import opened Text
  import opened Errors
  import opened Exec

  /** The marker appended to every child's environment. */
  const Marker := "GO111MODULE=on"

  /** What CmdRunner.Run hands back: stdout, and an error on failure. */
  datatype RunResult = RunResult(stdout: string, err: Option<Error>)

  /** cmd.Path, or else cmd.Args[0], or else "". */
  function RebuiltPath(req: Request): string {
    if req.path == "" && |req.args| > 0 then req.args[0] else req.path
  }

  /** cmd.Args[1:] when there is more than one argument, else nothing. */
  function ArgTail(args: seq<string>): seq<string> {
    if |args| > 1 then args[1..] else []
  }

  /** The caller's environment, or the host's when the caller gave none, then the marker. */
  function WithMarker(env: seq<string>, environ: seq<string>): seq<string> {
    if |env| == 0 then environ + [Marker] else env + [Marker]
  }

  /** The exec.CommandContext request DefaultRunner.Run builds from the caller's command. */
  function Rebuild(req: Request, host: Host): Request {
    var path := RebuiltPath(req);
    var c2 := CommandRequest(host, path, ArgTail(req.args));
    c2.(dir := req.dir, stdin := req.stdin, env := WithMarker(req.env, host.environ))
  }

  /** strings.Join(c2.Args, " "): the command line that is logged and put into errors. */
  function CommandLine(inv: Request): string {
    Join(inv.args, " ")
  }

  /** The result both runners compose from a finished child. */
  function Compose(command: string, o: ProcessOutcome): RunResult {
    if o.failure.Some? then
      RunResult(o.stdout, Some(CommandFailed(command, TrimSpace(o.stderr + "\n" + o.stdout), o.failure.value)))
    else
      RunResult(o.stdout, None)
  }

  /** DefaultRunner.Run's result for the k-th child of an operation. */
  function DefaultReply(req: Request, host: Host, k: nat): RunResult {
    var inv := Rebuild(req, host);
    Compose(CommandLine(inv), Spawn(host, k, inv))
  }

  /** DefaultRunner.Run (runner.go:23-64); the child is the host's k-th. */
  method DefaultRun(cmd: Cmd, host: Host, k: nat) returns (stdout: string, err: Option<Error>, ghost ran: Request)
    ensures ran == Rebuild(cmd.Snapshot(), host)
    ensures RunResult(stdout, err) == DefaultReply(cmd.Snapshot(), host, k)
  {
    var path := cmd.path;
    if path == "" && |cmd.args| > 0 {
      path := cmd.args[0];
    }
    var args: seq<string> := [];
    if |cmd.args| > 1 {
      args := cmd.args[1..];
    }

    var c2 := new Cmd.Command(host, path, args);
    c2.dir := cmd.dir;
    c2.stdin := cmd.stdin;
    c2.env := cmd.env;
    if |c2.env| == 0 {
      c2.env := host.environ + [Marker];
    } else {
      c2.env := c2.env + [Marker];
    }

    var command := Join(c2.args, " ");
    var inv := c2.Snapshot();
    ran := inv;

    var outcome := Spawn(host, k, inv);
    stdout := outcome.stdout;
    var errStr := outcome.stderr;
    if outcome.failure.Some? {
      var combined := TrimSpace(errStr + "\n" + stdout);
      err := Some(CommandFailed(command, combined, outcome.failure.value));
    } else {
      err := None;
    }
  }

  // -----------------------------------------------------------------------
  // What the rebuilt command is

  /** The rebuilt path falls back to Args[0] only when Path is empty; args are [path] ++ tail. */
  lemma RebuildArgs(req: Request, host: Host)
    ensures Rebuild(req, host).args ==
      [if req.path != "" then req.path else if |req.args| > 0 then req.args[0] else ""]
      + (if |req.args| > 1 then req.args[1..] else [])
  {
  }

  /** Dir and Stdin are passed through unchanged. */
  lemma RebuildKeepsDirAndStdin(req: Request, host: Host)
    ensures Rebuild(req, host).dir == req.dir
    ensures Rebuild(req, host).stdin == req.stdin
  {
  }

  /**
   * The child's environment is the caller's (or, when empty, the host's) with
   * the marker added at the end: nothing dropped, reordered or duplicated.
   */
  lemma {:induction false} RebuildEnv(req: Request, host: Host)
    ensures var base := if req.env == [] then host.environ else req.env;
      var env := Rebuild(req, host).env;
      && |env| == |base| + 1
      && env[..|base|] == base
      && env[|base|] == Marker
      && multiset(env) == multiset(base) + multiset{Marker}
  {
    var base := if req.env == [] then host.environ else req.env;
    var env := Rebuild(req, host).env;
    assert env == base + [Marker];
    assert env[..|base|] == base;
  }

  /** The command line is the rebuilt path, then each remaining argument after one space. */
  lemma {:induction false} CommandLineOfRebuild(req: Request, host: Host)
    ensures var tail := ArgTail(req.args);
      CommandLine(Rebuild(req, host)) == RebuiltPath(req) + (if tail == [] then "" else " " + Join(tail, " "))
  {
    var tail := ArgTail(req.args);
    var args := Rebuild(req, host).args;
    assert args == [RebuiltPath(req)] + tail;
    if tail != [] {
      assert args[1..] == tail;
    }
  }

  // -----------------------------------------------------------------------
  // The composed result

  /** Success exactly when the child succeeded; stdout is passed back either way. */
  lemma ComposeOutcome(command: string, o: ProcessOutcome)
    ensures Compose(command, o).stdout == o.stdout
    ensures Compose(command, o).err.None? <==> o.failure.None?
  {
  }

  /** On success stderr plays no part in the result. */
  lemma ComposeSuccessIgnoresStderr(command: string, o: ProcessOutcome, otherStderr: string)
    requires o.failure.None?
    ensures Compose(command, o) == Compose(command, o.(stderr := otherStderr)) == RunResult(o.stdout, None)
  {
  }

  /**
   * On failure the error reads "<quoted command>" failed: <trimmed stderr\nstdout>: <cause>
   * and wraps the child's failure.
   */
  lemma ComposeFailureMessage(command: string, o: ProcessOutcome)
    requires o.failure.Some?
    ensures var e := Compose(command, o).err;
      && e.Some?
      && Message(e.value) == Quote(command) + " failed: " + TrimSpace(o.stderr + "\n" + o.stdout) + ": " + o.failure.value.text
      && Unwrap(e.value) == WrapsCause(o.failure.value)
      && '\n' !in Quote(command)
  {
    EscapeHasNoNewline(command);
  }

  /** A failure's message contains the command line whenever the line needs no escaping. */
  lemma {:induction false} FailureMessageNamesCommand(command: string, o: ProcessOutcome)
    requires o.failure.Some?
    requires forall k :: 0 <= k < |command| ==> IsPlain(command[k])
    ensures IsInfix(command, Message(Compose(command, o).err.value))
  {
    QuotePlain(command);
    var m := Message(Compose(command, o).err.value);
    assert m == "\"" + command + "\"" + " failed: " + TrimSpace(o.stderr + "\n" + o.stdout) + ": " + o.failure.value.text;
    assert m[1..1 + |command|] == command;
    assert OccursAt(m, command, 1);
  }

  /** An empty request (no path, no arguments) fails without a child being asked. */
  lemma EmptyRequestFails(req: Request, host: Host, k: nat)
    requires req.path == "" && req.args == []
    ensures DefaultReply(req, host, k) == Compose("", ProcessOutcome("", "", Some(NoCommand)))
    ensures DefaultReply(req, host, k).err.Some?
  {
  }

  // -----------------------------------------------------------------------
  // The CmdRunner a caller passes

  /** A CmdRunner: nil, DefaultRunner{}, or any other implementation, given by its replies. */
  datatype CmdRunner = Nil | Default | Custom(run: (nat, Request) -> RunResult)

  /** What the k-th runner call of an operation returns for a request. */
  function Reply(r: CmdRunner, req: Request, host: Host, k: nat): RunResult {
    match r
    case Custom(run) => run(k, req)
    case _ => DefaultReply(req, host, k)
  }

  /** `if r == nil { r = DefaultRunner{} }`, as both callers write it. */
  function Resolve(r: CmdRunner): (r': CmdRunner)
    ensures !r'.Nil?
    ensures !r.Nil? ==> r' == r
    ensures r.Nil? ==> r' == Default
  {
    if r.Nil? then Default else r
  }

  /** r.Run(ctx, logger, cmd) on a runner that is not nil. */
  method Call(r: CmdRunner, cmd: Cmd, host: Host, k: nat) returns (stdout: string, err: Option<Error>)
    requires !r.Nil?
    ensures RunResult(stdout, err) == Reply(r, cmd.Snapshot(), host, k)
  {
    match r
    case Custom(run) =>
      var res := run(k, cmd.Snapshot());
      stdout, err := res.stdout, res.err;
    case _ =>
      ghost var ran;
      stdout, err, ran := DefaultRun(cmd, host, k);
  }

  /** A nil runner is replaced by DefaultRunner. */
  lemma NilRunnerIsDefault(req: Request, host: Host, k: nat)
    ensures Reply(Resolve(Nil), req, host, k) == DefaultReply(req, host, k)
  {
  }
}
