# my-operator kubeutil and test utilities, modelled in Dafny

This project models the sequential logic of HeaInSeo/my-operator's
Kubernetes helpers and proves properties of that model.

- **Credential poller** (`pkg/kubeutil/token.go`). `ServiceAccountToken` checks the context first. It then makes one `kubectl create --raw …/token` attempt at once, and one more on every 2-second tick, until an attempt yields a non-empty token or the context is done. It keeps the last attempt's error.
- **Process runner** (`pkg/kubeutil/runner.go`). `DefaultRunner.Run` rebuilds the caller's `exec.Cmd` as a context-bound command:
  - the path falls back to `Args[0]`;
  - the argument tail is kept;
  - Dir and Stdin are copied;
  - `GO111MODULE=on` is appended to the environment.

  It runs the child with separate stdout and stderr buffers and composes `(stdout, error)`. A failure gets the message shape `"<command>" failed: <trimmed stderr+stdout>: <cause>`.
- **ClusterRoleBinding apply** (`pkg/kubeutil/rbac.go`). It fills a fixed manifest template and sends it on stdin to one `kubectl apply -f -` call. Any runner error is wrapped with a stage prefix.
- **Test utilities** (`test/utils/utils.go`):
  - `Run`;
  - `GetNonEmptyLines`;
  - the CRD match of `IsCertManagerCRDsInstalled`;
  - `GetProjectDir`;
  - the text rewrite of `UncommentCode`.

Modules:

- `Wrappers`: `Option` and `Result`.
- `Text`: the Go string functions the code relies on (`strings.TrimSpace`, `Index`, `Contains`, `TrimPrefix`, `Split`, `Join`, `ReplaceAll`), `bufio.ScanLines` and the `%q` quoting.
- `Errors`: the error values and their `Error()` text.
- `Exec`: `exec.Cmd` as a class whose fields callers assign, `exec.Command`, and the host boundary.
- `Runner`, `Token`, `Rbac` and `TestUtils`: one module per source file, in that order.

The host replaces everything the program asks of the operating system. A `Host` value holds:

- the environment;
- the `exec.LookPath` lookup;
- the outcome `(stdout, stderr, failure)` of the k-th child process that one operation starts for a given request.

A CmdRunner is `Nil`, `Default`, or `Custom`, an arbitrary implementation given by its replies. The ticker, the context and Go's `select` become a finite trace of `Tick`/`Done` events. Where both are ready, Go picks one at random, and the trace records the pick. The JSON decoder is an abstract function from a body to the `status.token` field or a decoding error.

The imperative code is written as methods: building commands, the poll loop, the line loops, the scanner loop and the nested CRD search. Each method is proved equal to a specification function, and the properties are lemmas about those functions.

## Model

| member | source | states |
|---|---|---|
| Token.TokenRequestShape | pkg/kubeutil/token.go:44-49 | Every attempt runs `kubectl create --raw /api/v1/namespaces/<ns>/serviceaccounts/<sa>/token -f -` with the fixed TokenRequest body on stdin, no dir and no env. |
| Token.Classify | pkg/kubeutil/token.go:51-63 | A validated reply is `Ok` only with a non-empty token, and its error is never a context error. |
| Token.AttemptSucceedsIff | pkg/kubeutil/token.go:51-63 | An attempt succeeds iff the run succeeds, the body decodes and the token is non-empty. A run error is wrapped with ns/sa. A decode error carries the body. A decoded empty token is "token is empty". |
| Token.TryOnce | pkg/kubeutil/token.go:44-64 | The k-th `tryOnce` builds the token request, makes one runner call and returns the k-th attempt's validated outcome. |
| Token.ServiceAccountToken | pkg/kubeutil/token.go:30-89 | The run (result, runner calls, events consumed) is the poll state machine over the nil-resolved runner's attempts. A returned token is never empty. Once entered, the error returned is never the context's own. |
| Token.PollPrecheck | pkg/kubeutil/token.go:36-38 | A context done on entry returns its error with zero runner calls and no event read. |
| Token.PollEagerSuccess | pkg/kubeutil/token.go:66-68 | A first attempt that succeeds is returned after one call, before any event is read. |
| Token.LoopAccounting | pkg/kubeutil/token.go:73-87 | From any point of the loop, the calls made grow by exactly the ticks consumed. |
| Token.PollAccounting | pkg/kubeutil/token.go:66-87 | Runner calls are sequential: exactly 1 + (ticks among the consumed events). |
| Token.LoopFailuresThenSuccess | pkg/kubeutil/token.go:73-88 | Suppose the loop faces n+1 ticks, n failing attempts and then a success. It returns that success after n+1 more calls and consumes n+1 events. |
| Token.PollFailuresThenSuccess | pkg/kubeutil/token.go:66-88 | If attempts 0..n-1 fail, attempt n succeeds and the first n events are ticks, the poll returns attempt n's token after exactly n+1 calls and n events. |
| Token.LoopReturns | pkg/kubeutil/token.go:73-88 | Every attempt of the loop before its last failed. A success is the last attempt, on a tick. An error return happens on `Done` and carries the last attempt's error, or the one held on entry. |
| Token.PollReturnsLastAttempt | pkg/kubeutil/token.go:66-88 | After entering, every attempt but the last failed. A success is the last attempt's token. A `Done` returns exactly the most recent attempt's error, never an aggregate and never `ctx.Err()`. |
| Token.AttemptsNeverEmpty | pkg/kubeutil/token.go:60-63 | No attempt yields an empty token or a context error. |
| Token.PollEndsWell | pkg/kubeutil/token.go:66-88 | With such attempts, a poll never returns an empty token and, once entered, never the context's error. |
| Runner.DefaultRun | pkg/kubeutil/runner.go:23-64 | The child is asked to run the rebuilt request, and `(stdout, err)` is the result composed from the k-th child's outcome. |
| Runner.RebuildArgs | pkg/kubeutil/runner.go:29-38 | The rebuilt args are `[path]` followed by `Args[1:]` when there is more than one arg, else nothing. Path is `cmd.Path`, else `Args[0]`, else "". |
| Runner.RebuildKeepsDirAndStdin | pkg/kubeutil/runner.go:39-40 | Dir and Stdin are copied unchanged. |
| Runner.RebuildEnv | pkg/kubeutil/runner.go:41-46 | The env is the caller's, or the host's when the caller's is empty, followed by `GO111MODULE=on`. The entries keep their order, the length grows by one, and the multiset gains only the marker. |
| Runner.CommandLineOfRebuild | pkg/kubeutil/runner.go:38-48 | The command string is the rebuilt path, then each remaining argument after one space. |
| Runner.ComposeOutcome | pkg/kubeutil/runner.go:55-63 | Stdout is returned either way. The error is nil exactly when the child succeeded. |
| Runner.ComposeSuccessIgnoresStderr | pkg/kubeutil/runner.go:51-63 | On success stderr plays no part in the result. |
| Runner.ComposeFailureMessage | pkg/kubeutil/runner.go:59-62 | On failure the message is `"<quoted command>" failed: <TrimSpace(stderr+"\n"+stdout)>: <cause>`, and the error wraps the cause. The quoted command holds no raw newline, whatever the command line contains. |
| Runner.FailureMessageNamesCommand | pkg/kubeutil/runner.go:59-61 | A failure message contains the command line when no rune of it needs escaping. |
| Runner.EmptyRequestFails | pkg/kubeutil/runner.go:29-55 | A request with no path and no args fails with "exec: no command", and no child is asked. |
| Runner.Resolve | pkg/kubeutil/token.go:32-34 | A nil runner becomes DefaultRunner, and any other runner (DefaultRunner or a custom one) is kept as it is. |
| Runner.Call | pkg/kubeutil/runner.go:15-17 | `r.Run` on a non-nil runner gives that runner's reply to the command's current fields. |
| Runner.NilRunnerIsDefault | pkg/kubeutil/rbac.go:17-19 | A nil runner replies exactly as DefaultRunner does. |
| Rbac.ApplyClusterRoleBinding | pkg/kubeutil/rbac.go:15-49 | Exactly one request is sent: the filled manifest to `kubectl apply -f -`. The result is nil iff the runner's reply is. A failure is prefixed with "kubectl apply clusterrolebinding failed: " and wraps the runner's error. |
| Rbac.ApplyRequestShape | pkg/kubeutil/rbac.go:37-38 | The argv is exactly `kubectl apply -f -`, with the manifest on stdin. |
| Rbac.ManifestFields | pkg/kubeutil/rbac.go:23-35 | For values without newlines, the manifest splits into the 12 template lines plus a final empty piece. Lines 4, 8, 11 and 12 carry name, clusterRole, sa and ns after their keys. |
| Rbac.ManifestVerbatim | pkg/kubeutil/rbac.go:23-35 | Each of the four values appears verbatim, unescaped, whatever it contains, after its key as the rest of template line 4, 8, 11 or 12, at the offset where that line starts. |
| TestUtils.GetProjectDir | test/utils/utils.go:175-182 | A failed `os.Getwd` gives the empty directory and an error whose message is "failed to get current working directory: " plus the cause, which it wraps. Otherwise there is no error, and the directory is the working directory with every "/test/e2e" removed, so never longer. |
| TestUtils.ProjectDirUnchanged | test/utils/utils.go:175-182 | A working directory without "/test/e2e" is returned unchanged, with no error. |
| TestUtils.ProjectDirRemovesOccurrence | test/utils/utils.go:180 | Each occurrence of "/test/e2e", scanned left to right, is removed, and the text around it is kept. |
| TestUtils.ProjectDirFromE2E | test/utils/utils.go:175-182 | Run from `<root>/test/e2e`, the project directory is `<root>`. |
| TestUtils.Run | test/utils/utils.go:50-85 | The caller's command gets the project dir and the host env plus the marker. `(stdout, err)` is composed from the k-th child's outcome. |
| TestUtils.RunContract | test/utils/utils.go:58-84 | The env is always the host env followed by `GO111MODULE=on`. Stdout comes back on success with no error. A failure has the runner's message shape. |
| TestUtils.TrimAll | test/utils/utils.go:164-165 | Each piece is trimmed, one for one. |
| TestUtils.DropEmpty | test/utils/utils.go:166-169 | No empty element survives, and there are no more elements than before. |
| TestUtils.GetNonEmptyLines | test/utils/utils.go:160-172 | The loop returns the trimmed non-empty pieces of `Split(output, "\n")`, in order. |
| TestUtils.NonEmptyStep | test/utils/utils.go:164-170 | One more line adds its trimmed form at the end unless it is empty. |
| TestUtils.DropEmptyAppend | test/utils/utils.go:161-171 | The filter distributes over concatenation, so the output keeps the input's order. |
| TestUtils.DropEmptyMembers | test/utils/utils.go:166-169 | A string is kept iff it is in the input and not empty. |
| TestUtils.NonEmptyLinesTrimmed | test/utils/utils.go:164-170 | No element is empty or has surrounding whitespace. There are at most as many elements as pieces. |
| TestUtils.NonEmptyLinesKeeps | test/utils/utils.go:164-170 | Every non-blank piece of the output is in the result, trimmed. |
| TestUtils.NonEmptyLinesFrom | test/utils/utils.go:164-170 | Every element of the result is the trimmed form of some piece. |
| TestUtils.FindListed | test/utils/utils.go:135-143 | For the nested search, true iff some name is a substring of some line. |
| TestUtils.IsCertManagerCRDsInstalled | test/utils/utils.go:115-144 | True iff `kubectl get crds` succeeds and some one of the six cert-manager CRD names is a substring of some non-empty output line. False whenever Run fails. |
| TestUtils.TrimEach | test/utils/utils.go:217 | Each token loses one leading prefix, one for one. |
| TestUtils.UncommentLines | test/utils/utils.go:212-227 | The scanner loop writes the tokens without their prefix, joined by "\n" with no trailing newline. |
| TestUtils.JoinTrimmedStep | test/utils/utils.go:216-227 | One more token adds a "\n" (after the first) and the token without its prefix. |
| TestUtils.UncommentCode | test/utils/utils.go:192-240 | A read error gives "failed to read file" and no write. A missing target gives "unable to find the code" and no write. An empty target returns nil with no write. Otherwise the content is handed to the write with the first occurrence of the target rewritten, and a write error gives "failed to write file". |
| TestUtils.RewriteKeepsContext | test/utils/utils.go:207-229 | The text before the first occurrence and after it is unchanged. The occurrence becomes the uncommented block. |
| TestUtils.UncommentRestoresBlock | test/utils/utils.go:192-240 | Uncommenting undoes commenting. Take single lines, each commented with a non-empty prefix and found first after `a`. The rewrite yields `a`, the lines joined by "\n", then the rest. |

## Left out

- Child processes, `exec.CommandContext` killing the child on cancellation, `os.Environ`, `exec.LookPath`, `os.Getwd`, `os.Chdir`, `os.ReadFile` and `os.WriteFile` are I/O. They are the `Host` value, the working-directory result, the read result and the write failure, given as inputs. A failed `os.Chdir` is only logged, so it has no effect to model.
- `exec.Command`'s recorded lookup error (`cmd.Err`) is not modelled separately. A child that fails for it is one outcome of `Host.child`.
- JSON decoding is the abstract `Token.Decoder`. The JSON format itself is not modelled.
- Logging (`slo.Logger`, `GinkgoWriter`) has no effect on results and is left out. So is rbac.go's logging of non-blank trimmed stdout (lines 42-44).
- A pending poll has no model of its own. Go would wait for another event, and when the trace runs out the model ends the poll with `StillWaiting`. The 2-second ticker interval (token.go:41) is not a value of the model; each `Tick` event stands for one expiry of it.
- `strings.TrimSpace` trims ASCII whitespace only (Unicode spaces are not). `%q` escapes ASCII only and treats every non-ASCII rune as printable.
- Go strings are byte sequences, while the model's strings are sequences of Unicode scalar values. Invalid UTF-8 in a file, a working directory or a child's output cannot be expressed, and neither can `%q`'s `\x` escapes of such bytes.
- `bufio.Scanner`'s token-size limit (64 KiB) is not modelled, so no rewrite stops on `bufio.ErrTooLong`.
- The `bytes.Buffer` write errors in `UncommentCode` are left out, because writes to a `bytes.Buffer` never fail.
- `InstallCertManager`, `UninstallCertManager`, `LoadImageToKindClusterWithName` and `certmanagerURL` are fixed argument lists around `Run` and are not modelled.
- test/e2e/e2e_test.go is not part of this model.
- That `kubectl apply` is idempotent is a property of the cluster, not of this code, and is not modelled.
- `Stdout`/`Stderr` are assigned to the command by `Run` and `DefaultRunner.Run`; the model feeds the buffers from the host's outcome instead of keeping them as fields.
- The two Go `Run` functions compose their results by the same code. Both methods, `Runner.DefaultRun` and `TestUtils.Run`, write that composition out step by step, as the Go code does. Their specifications, `Runner.DefaultReply` and `TestUtils.RunReply`, share the single definition `Runner.Compose`, and each method is proved equal to its specification.
- An error from `os.Getwd` comes with the empty directory, as Go returns it.
