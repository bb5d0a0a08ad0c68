/**
 * test/utils/utils.go: the helpers the end-to-end tests use. The working
 * directory, the file that UncommentCode reads and writes, and the child
 * processes are inputs; chdir and the logging to GinkgoWriter have no effect
 * here.
 */
module TestUtils {
  import opened Wrappers
  import opened Text
  import opened Errors
  import opened Exec
  import opened Runner

  // -----------------------------------------------------------------------
  // GetProjectDir

  const E2EDir := "/test/e2e"

  /**
   * GetProjectDir, given what os.Getwd returned: a failure comes back as the
   * empty directory and a wrapping error; otherwise every "/test/e2e" is cut.
   */
  function GetProjectDir(wd: Result<string, Cause>): (r: (string, Option<Error>))
    ensures wd.Err? <==> r.1.Some?
    ensures wd.Err? ==>
      && r.0 == ""
      && Message(r.1.value) == "failed to get current working directory: " + wd.error.text
      && Unwrap(r.1.value) == WrapsCause(wd.error)
    ensures wd.Ok? ==> |r.0| <= |wd.value|
  {
    match wd
    case Err(cause) => ("", Some(WorkdirFailed(cause)))
    case Ok(dir) =>
      ReplaceAllDeleteShrinks(dir, E2EDir);
      (ReplaceAll(dir, E2EDir, ""), None)
  }

  /** No occurrence of "/test/e2e" can start inside a string free of it and run into a following one. */
  lemma {:induction false} E2EDirDoesNotStraddle(a: string, b: string)
    requires !IsInfix(E2EDir, a)
    ensures forall j :: 0 <= j < |a| ==> !OccursAt(a + E2EDir + b, E2EDir, j)
  {
    var s := a + E2EDir + b;
    var m := E2EDir;
    forall j | 0 <= j < |a| ensures !OccursAt(s, m, j) {
      if j + |m| <= |a| {
        assert s[j..j + |m|] == a[j..j + |m|];
        assert !OccursAt(a, m, j);
      } else {
        var d := |a| - j;
        assert s[|a|] == '/' && s[|a| + 1] == 't';
        assert s[j..j + |m|][d] == s[|a|];
        if d == 5 {
          assert s[j..j + |m|][6] == s[|a| + 1];
        } else {
          assert m[d] != '/';
        }
      }
    }
  }

  /** A directory without "/test/e2e" is returned unchanged. */
  lemma ProjectDirUnchanged(dir: string)
    requires !IsInfix(E2EDir, dir)
    ensures GetProjectDir(Ok(dir)) == (dir, None)
  {
    ReplaceAllAbsent(dir, E2EDir, "");
  }

  /** Each occurrence of "/test/e2e", left to right, is removed and the text around it kept. */
  lemma ProjectDirRemovesOccurrence(a: string, b: string)
    requires !IsInfix(E2EDir, a)
    ensures GetProjectDir(Ok(a + E2EDir + b)).0 == a + GetProjectDir(Ok(b)).0
  {
    E2EDirDoesNotStraddle(a, b);
    ReplaceAllFirst(a, E2EDir, b, "");
  }

  /** Run from <root>/test/e2e, the project directory is <root>. */
  lemma ProjectDirFromE2E(root: string)
    requires !IsInfix(E2EDir, root)
    ensures GetProjectDir(Ok(root + E2EDir)) == (root, None)
  {
    assert root + E2EDir + "" == root + E2EDir;
    ProjectDirRemovesOccurrence(root, "");
    ProjectDirUnchanged("");
    assert root + "" == root;
  }

  // -----------------------------------------------------------------------
  // Run

  /** The command after Run has set Dir and Env on it. */
  function Prepared(req: Request, host: Host, wd: Result<string, Cause>): Request {
    req.(dir := GetProjectDir(wd).0, env := host.environ + [Marker])
  }

  /** Run's result for the k-th child. */
  function RunReply(req: Request, host: Host, wd: Result<string, Cause>, k: nat): RunResult {
    var p := Prepared(req, host, wd);
    Compose(Join(p.args, " "), Spawn(host, k, p))
  }

  /** Run (utils.go:50-85): sets Dir and Env on the caller's command, then runs it. */
  method Run(cmd: Cmd, host: Host, wd: Result<string, Cause>, k: nat) returns (stdout: string, err: Option<Error>)
    modifies cmd
    ensures cmd.Snapshot() == Prepared(old(cmd.Snapshot()), host, wd)
    ensures RunResult(stdout, err) == RunReply(old(cmd.Snapshot()), host, wd, k)
  {
    var dir := GetProjectDir(wd).0;
    cmd.dir := dir;
    // os.Chdir(cmd.Dir): a failure is only logged.
    cmd.env := host.environ + [Marker];
    var command := Join(cmd.args, " ");

    var outcome := Spawn(host, k, cmd.Snapshot());
    stdout := outcome.stdout;
    var errStr := outcome.stderr;
    if outcome.failure.Some? {
      var combined := TrimSpace(errStr + "\n" + stdout);
      err := Some(CommandFailed(command, combined, outcome.failure.value));
    } else {
      err := None;
    }
  }

  /**
   * Run always gives the child the host environment plus the marker, whatever
   * the caller set, returns stdout alone on success, and on failure the
   * runner's message shape.
   */
  lemma RunContract(req: Request, host: Host, wd: Result<string, Cause>, k: nat)
    ensures Prepared(req, host, wd).env == host.environ + [Marker]
    ensures var p := Prepared(req, host, wd); var o := Spawn(host, k, p); var reply := RunReply(req, host, wd, k);
      && reply.stdout == o.stdout
      && (o.failure.None? ==> reply.err == None)
      && (o.failure.Some? ==>
            && reply.err.Some?
            && Message(reply.err.value) ==
                 Quote(Join(req.args, " ")) + " failed: " + TrimSpace(o.stderr + "\n" + o.stdout) + ": " + o.failure.value.text)
  {
  }

  // -----------------------------------------------------------------------
  // GetNonEmptyLines

  /** Every line trimmed. */
  function TrimAll(lines: seq<string>): (r: seq<string>)
    ensures |r| == |lines|
    ensures forall k :: 0 <= k < |r| ==> r[k] == TrimSpace(lines[k])
  {
    if lines == [] then [] else TrimAll(lines[..|lines| - 1]) + [TrimSpace(lines[|lines| - 1])]
  }

  /** The non-empty elements, in order. */
  function DropEmpty(xs: seq<string>): (r: seq<string>)
    ensures |r| <= |xs|
    ensures forall k :: 0 <= k < |r| ==> r[k] != ""
  {
    if xs == [] then []
    else
      var x := xs[|xs| - 1];
      DropEmpty(xs[..|xs| - 1]) + (if x == "" then [] else [x])
  }

  /** The output split on "\n", each piece trimmed, the empty ones dropped. */
  function NonEmptyLines(output: string): seq<string> {
    DropEmpty(TrimAll(Split(output, '\n')))
  }

  /** GetNonEmptyLines (utils.go:160-172). */
  method GetNonEmptyLines(output: string) returns (res: seq<string>)
    ensures res == NonEmptyLines(output)
  {
    var lines := Split(output, '\n');
    res := [];
    for i := 0 to |lines|
      invariant res == DropEmpty(TrimAll(lines[..i]))
    {
      var line := TrimSpace(lines[i]);
      NonEmptyStep(lines, i);
      if line == "" {
        continue;
      }
      res := res + [line];
    }
    assert lines[..|lines|] == lines;
  }

  /** One more line: its trimmed form is kept unless it is empty. */
  lemma NonEmptyStep(lines: seq<string>, i: nat)
    requires i < |lines|
    ensures var t := TrimSpace(lines[i]);
      DropEmpty(TrimAll(lines[..i + 1])) == DropEmpty(TrimAll(lines[..i])) + (if t == "" then [] else [t])
  {
    assert lines[..i + 1][..i] == lines[..i];
    var xs := TrimAll(lines[..i + 1]);
    assert xs[..i] == TrimAll(lines[..i]);
  }

  /** Dropping distributes over concatenation, so the input's order is kept. */
  lemma {:induction false} DropEmptyAppend(a: seq<string>, b: seq<string>)
    ensures DropEmpty(a + b) == DropEmpty(a) + DropEmpty(b)
    decreases |b|
  {
    if b == [] {
      assert a + b == a;
    } else {
      var b' := b[..|b| - 1];
      assert (a + b)[..|a + b| - 1] == a + b';
      assert (a + b)[|a + b| - 1] == b[|b| - 1];
      DropEmptyAppend(a, b');
    }
  }

  /** Exactly the non-empty elements survive. */
  lemma {:induction false} DropEmptyMembers(xs: seq<string>, x: string)
    ensures x in DropEmpty(xs) <==> x in xs && x != ""
    decreases |xs|
  {
    if xs != [] {
      var init := xs[..|xs| - 1];
      DropEmptyMembers(init, x);
      assert xs == init + [xs[|xs| - 1]];
    }
  }

  /** No element of the result is empty or has surrounding whitespace, and there are at most as many as pieces. */
  lemma NonEmptyLinesTrimmed(output: string)
    ensures var r := NonEmptyLines(output);
      && |r| <= |Split(output, '\n')|
      && forall k :: 0 <= k < |r| ==> r[k] != "" && IsTrimmed(r[k])
  {
    var trimmed := TrimAll(Split(output, '\n'));
    var r := DropEmpty(trimmed);
    forall k | 0 <= k < |r| ensures IsTrimmed(r[k]) {
      DropEmptyMembers(trimmed, r[k]);
      var j :| 0 <= j < |trimmed| && trimmed[j] == r[k];
    }
  }

  /** Every piece of the output that is not blank is in the result, trimmed. */
  lemma NonEmptyLinesKeeps(output: string, j: nat)
    requires j < |Split(output, '\n')| && !IsBlank(Split(output, '\n')[j])
    ensures TrimSpace(Split(output, '\n')[j]) in NonEmptyLines(output)
  {
    var pieces := Split(output, '\n');
    var trimmed := TrimAll(pieces);
    TrimSpaceEmptyIffBlank(pieces[j]);
    DropEmptyMembers(trimmed, trimmed[j]);
  }

  /** Every element of the result is the trimmed form of some piece of the output. */
  lemma NonEmptyLinesFrom(output: string, x: string)
    requires x in NonEmptyLines(output)
    ensures exists j :: 0 <= j < |Split(output, '\n')| && x == TrimSpace(Split(output, '\n')[j])
  {
    var trimmed := TrimAll(Split(output, '\n'));
    DropEmptyMembers(trimmed, x);
    var j :| 0 <= j < |trimmed| && trimmed[j] == x;
  }

  // -----------------------------------------------------------------------
  // IsCertManagerCRDsInstalled

  const CertManagerCRDs: seq<string> := [
    "certificates.cert-manager.io",
    "issuers.cert-manager.io",
    "clusterissuers.cert-manager.io",
    "certificaterequests.cert-manager.io",
    "orders.acme.cert-manager.io",
    "challenges.acme.cert-manager.io"
  ]

  /** Some listed name is a substring of some line. */
  predicate AnyListed(names: seq<string>, lines: seq<string>) {
    exists a, b :: 0 <= a < |names| && 0 <= b < |lines| && IsInfix(names[a], lines[b])
  }

  function CRDsRequest(host: Host): Request {
    CommandRequest(host, "kubectl", ["get", "crds"])
  }

  /** IsCertManagerCRDsInstalled (utils.go:115-144). */
  method IsCertManagerCRDsInstalled(host: Host, wd: Result<string, Cause>) returns (installed: bool)
    ensures var reply := RunReply(CRDsRequest(host), host, wd, 0);
      installed <==> reply.err.None? && AnyListed(CertManagerCRDs, NonEmptyLines(reply.stdout))
  {
    var cmd := new Cmd.Command(host, "kubectl", ["get", "crds"]);
    var output, err := Run(cmd, host, wd, 0);
    if err.Some? {
      return false;
    }

    var crdList := GetNonEmptyLines(output);
    installed := FindListed(CertManagerCRDs, crdList);
  }

  /** The nested search over the CRD names and the listed lines (utils.go:135-141). */
  method FindListed(names: seq<string>, lines: seq<string>) returns (found: bool)
    ensures found <==> AnyListed(names, lines)
  {
    for a := 0 to |names|
      invariant forall a', b :: 0 <= a' < a && 0 <= b < |lines| ==> !IsInfix(names[a'], lines[b])
    {
      var crd := names[a];
      for b := 0 to |lines|
        invariant forall b' :: 0 <= b' < b ==> !IsInfix(crd, lines[b'])
      {
        if Contains(lines[b], crd) {
          return true;
        }
      }
    }
    return false;
  }

  // -----------------------------------------------------------------------
  // UncommentCode

  /** Each line with one leading prefix removed. */
  function TrimEach(lines: seq<string>, prefix: string): (r: seq<string>)
    ensures |r| == |lines|
    ensures forall k :: 0 <= k < |r| ==> r[k] == TrimPrefix(lines[k], prefix)
  {
    if lines == [] then [] else [TrimPrefix(lines[0], prefix)] + TrimEach(lines[1..], prefix)
  }

  /** The file content with the occurrence at `i` of `target` uncommented. */
  function Rewrite(content: string, i: nat, target: string, prefix: string): string
    requires i + |target| <= |content|
  {
    content[..i] + Join(TrimEach(ScanLines(target), prefix), "\n") + content[i + |target|..]
  }

  /**
   * The text before the occurrence and the text after it are kept; the
   * occurrence itself becomes the uncommented block.
   */
  lemma RewriteKeepsContext(content: string, i: nat, target: string, prefix: string)
    requires i + |target| <= |content|
    ensures var w := Rewrite(content, i, target, prefix);
      var block := Join(TrimEach(ScanLines(target), prefix), "\n");
      && |w| == |content| - |target| + |block|
      && w[..i] == content[..i]
      && w[i..i + |block|] == block
      && w[i + |block|..] == content[i + |target|..]
  {
    var block := Join(TrimEach(ScanLines(target), prefix), "\n");
    var w := Rewrite(content, i, target, prefix);
    assert w == content[..i] + block + content[i + |target|..];
  }

  /**
   * UncommentCode (utils.go:192-240), given what os.ReadFile returned and
   * whether os.WriteFile fails; `written` is what is handed to os.WriteFile.
   */
  method UncommentCode(filename: string, target: string, prefix: string, read: Result<string, Cause>, writeFailure: Option<Cause>)
    returns (err: Option<Error>, written: Option<string>)
    ensures read.Err? ==> err == Some(ReadFailed(filename, read.error)) && written == None
    ensures read.Ok? && !IsInfix(target, read.value) ==> err == Some(TargetNotFound(target)) && written == None
    ensures read.Ok? && target == "" ==> err == None && written == None
    ensures read.Ok? && target != "" && IsInfix(target, read.value) ==>
      && written == Some(Rewrite(read.value, Index(read.value, target), target, prefix))
      && err == (if writeFailure.Some? then Some(WriteFailed(filename, writeFailure.value)) else None)
  {
    if read.Err? {
      return Some(ReadFailed(filename, read.error)), None;
    }
    var content := read.value;

    var idx := Index(content, target);
    if idx < 0 {
      return Some(TargetNotFound(target)), None;
    }

    var lines := ScanLines(target);  // the scanner's tokens
    if |lines| == 0 {
      return None, None;
    }
    var block := UncommentLines(lines, prefix);
    var rewritten := content[..idx] + block + content[idx + |target|..];
    assert rewritten == Rewrite(content, idx, target, prefix);
    written := Some(rewritten);
    if writeFailure.Some? {
      return Some(WriteFailed(filename, writeFailure.value)), written;
    }
    return None, written;
  }

  /** The scanner loop (utils.go:216-227): the tokens without the prefix, newline-separated. */
  method UncommentLines(lines: seq<string>, prefix: string) returns (out: string)
    requires lines != []
    ensures out == Join(TrimEach(lines, prefix), "\n")
  {
    out := "";
    var i := 0;
    while true
      invariant 0 <= i < |lines|
      invariant out == Join(TrimEach(lines[..i], prefix), "\n") + (if i > 0 then "\n" else "")
      decreases |lines| - i
    {
      var line := TrimPrefix(lines[i], prefix);
      JoinTrimmedStep(lines, i, prefix);
      out := out + line;
      // Avoid writing a newline in case the previous line was the last in target.
      if i + 1 == |lines| {
        break;
      }
      out := out + "\n";
      i := i + 1;
    }
    assert lines[..|lines|] == lines;
  }

  lemma JoinTrimmedStep(lines: seq<string>, i: nat, prefix: string)
    requires i < |lines|
    ensures Join(TrimEach(lines[..i + 1], prefix), "\n") ==
      Join(TrimEach(lines[..i], prefix), "\n") + (if i > 0 then "\n" else "") + TrimPrefix(lines[i], prefix)
  {
    assert TrimEach(lines[..i + 1], prefix) == TrimEach(lines[..i], prefix) + [TrimPrefix(lines[i], prefix)];
    if i > 0 {
      JoinSnoc(TrimEach(lines[..i], prefix), TrimPrefix(lines[i], prefix), "\n");
    }
  }

  /** The block that commenting lines with `prefix`, one per line, produces. */
  function Comment(lines: seq<string>, prefix: string): string {
    Join(CommentEach(lines, prefix), "\n")
  }

  function CommentEach(lines: seq<string>, prefix: string): (r: seq<string>)
    ensures |r| == |lines|
    ensures forall k :: 0 <= k < |r| ==> r[k] == prefix + lines[k]
  {
    if lines == [] then [] else [prefix + lines[0]] + CommentEach(lines[1..], prefix)
  }

  /** A line that holds neither a newline nor a carriage return is a single commented line. */
  predicate PlainLine(line: string) {
    '\n' !in line && '\r' !in line
  }

  /** Commented lines end in neither a newline nor a carriage return, so DropCR keeps them. */
  lemma DropCRCommented(lines: seq<string>, prefix: string)
    requires prefix != [] && PlainLine(prefix)
    requires forall k :: 0 <= k < |lines| ==> PlainLine(lines[k])
    ensures DropCREach(CommentEach(lines, prefix)) == CommentEach(lines, prefix)
  {
    var commented := CommentEach(lines, prefix);
    forall k | 0 <= k < |commented| ensures DropCR(commented[k]) == commented[k] {
      var c := commented[k];
      assert c == prefix + lines[k];
      if lines[k] == [] {
        assert c[|c| - 1] == prefix[|prefix| - 1];
      } else {
        assert c[|c| - 1] == lines[k][|lines[k]| - 1];
      }
    }
  }

  /** The scanner yields the commented lines back, one token each. */
  lemma ScanCommented(lines: seq<string>, prefix: string)
    requires lines != [] && prefix != [] && PlainLine(prefix)
    requires forall k :: 0 <= k < |lines| ==> PlainLine(lines[k])
    ensures ScanLines(Comment(lines, prefix)) == CommentEach(lines, prefix)
  {
    var target := Comment(lines, prefix);
    var commented := CommentEach(lines, prefix);
    forall k | 0 <= k < |commented| ensures '\n' !in commented[k] {
      assert commented[k] == prefix + lines[k];
    }
    assert "\n" == ['\n'];
    SplitJoin(commented, '\n');
    assert commented[0] == prefix + lines[0];
    assert commented[|commented| - 1] == prefix + lines[|lines| - 1];
    DropCRCommented(lines, prefix);
  }

  /** Removing the prefix from each commented line gives the lines back. */
  lemma TrimCommented(lines: seq<string>, prefix: string)
    ensures TrimEach(CommentEach(lines, prefix), prefix) == lines
  {
    var commented := CommentEach(lines, prefix);
    forall k | 0 <= k < |lines| ensures TrimPrefix(commented[k], prefix) == lines[k] {
      assert commented[k] == prefix + lines[k];
      assert (prefix + lines[k])[..|prefix|] == prefix;
    }
  }

  /**
   * Uncommenting undoes commenting: a block of single lines each commented
   * with a non-empty prefix, found first at |a|, is replaced by the lines
   * themselves and the text around it is kept.
   */
  lemma UncommentRestoresBlock(a: string, lines: seq<string>, prefix: string, b: string)
    requires lines != [] && prefix != [] && PlainLine(prefix)
    requires forall k :: 0 <= k < |lines| ==> PlainLine(lines[k])
    requires forall j :: 0 <= j < |a| ==> !OccursAt(a + Comment(lines, prefix) + b, Comment(lines, prefix), j)
    ensures var content := a + Comment(lines, prefix) + b; var target := Comment(lines, prefix);
      && Index(content, target) == |a|
      && Rewrite(content, |a|, target, prefix) == a + Join(lines, "\n") + b
  {
    var target := Comment(lines, prefix);
    var content := a + target + b;
    assert Index(content, target) == |a| by {
      assert content[|a|..|a| + |target|] == target;
      IndexAtFirst(content, target, |a|);
    }
    assert Join(TrimEach(ScanLines(target), prefix), "\n") == Join(lines, "\n") by {
      ScanCommented(lines, prefix);
      TrimCommented(lines, prefix);
    }
    RewriteAt(a, target, b, prefix);
  }

  /** Rewriting the occurrence right after `a` keeps `a` and what follows the target. */
  lemma RewriteAt(a: string, target: string, b: string, prefix: string)
    ensures Rewrite(a + target + b, |a|, target, prefix) == a + Join(TrimEach(ScanLines(target), prefix), "\n") + b
  {
    var content := a + target + b;
    assert content[..|a|] == a;
    assert content[|a| + |target|..] == b;
  }
}
