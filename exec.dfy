/**
 * The part of Go's os/exec that the modelled code touches: the command
 * record exec.Cmd, exec.Command, and the boundary to the host (environment,
 * executable lookup and the child process itself, all abstract).
 */
module Exec {
  import opened Wrappers
  import opened Errors

  /** The fields of an exec.Cmd that describe what to run; stdin None is a nil reader. */
  datatype Request = Request(path: string, args: seq<string>, dir: string, stdin: Option<string>, env: seq<string>)

  /** What a child process leaves behind: its two output streams and, if it failed, why. */
  datatype ProcessOutcome = ProcessOutcome(stdout: string, stderr: string, failure: Option<Cause>)

  /**
   * The host: os.Environ(), exec.LookPath, and the outcome of the k-th child
   * process one operation starts for a given request.
   */
  datatype Host = Host(environ: seq<string>, lookPath: string -> string, child: (nat, Request) -> ProcessOutcome)

  /**
   * exec.Command looks a bare name (no path separator) up on PATH and keeps
   * the name as Path unless the lookup found something.
   */
  function ResolvePath(host: Host, name: string): string {
    if name != "" && '/' !in name then
      var lp := host.lookPath(name);
      if lp != "" then lp else name
    else name
  }

  /** The request exec.Command(name, arg...) builds. */
  function CommandRequest(host: Host, name: string, arg: seq<string>): Request {
    Request(ResolvePath(host, name), [name] + arg, "", None, [])
  }

  const NoCommand := Cause("exec: no command")

  /** Cmd.Run: an empty path is refused before any process is created. */
  function Spawn(host: Host, k: nat, inv: Request): ProcessOutcome {
    if inv.path == "" then ProcessOutcome("", "", Some(NoCommand)) else host.child(k, inv)
  }

  /** exec.Cmd, whose fields callers and runners assign in place. */
  class Cmd {
    var path: string
    var args: seq<string>
    var dir: string
    var stdin: Option<string>
    var env: seq<string>

    /** exec.Command(name, arg...) */
    constructor Command(host: Host, name: string, arg: seq<string>)
      ensures Snapshot() == CommandRequest(host, name, arg)
    {
      path := ResolvePath(host, name);
      args := [name] + arg;
      dir := "";
      stdin := None;
      env := [];
    }

    function Snapshot(): Request
      reads this
    {
      Request(path, args, dir, stdin, env)
    }
  }
}
