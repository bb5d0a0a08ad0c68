/**
 * pkg/kubeutil/rbac.go: ApplyClusterRoleBinding fills a fixed
 * ClusterRoleBinding manifest and feeds it to `kubectl apply -f -` through
 * the runner, once.
 */
module Rbac {
  import opened Wrappers
  import opened Text
  import opened Errors
  import opened Exec
  import opened Runner

  /** The manifest template, line by line, with the four values substituted as they are. */
  function ManifestLines(name: string, clusterRole: string, ns: string, sa: string): seq<string> {
    [ "apiVersion: rbac.authorization.k8s.io/v1",
      "kind: ClusterRoleBinding",
      "metadata:",
      "  name: " + name,
      "roleRef:",
      "  apiGroup: rbac.authorization.k8s.io",
      "  kind: ClusterRole",
      "  name: " + clusterRole,
      "subjects:",
      "- kind: ServiceAccount",
      "  name: " + sa,
      "  namespace: " + ns ]
  }

  /** The fmt.Sprintf result: every template line ends in a newline. */
  function Manifest(name: string, clusterRole: string, ns: string, sa: string): string {
    Terminated(ManifestLines(name, clusterRole, ns, sa))
  }

  /** `kubectl apply -f -` with the manifest on stdin. */
  function ApplyRequest(host: Host, manifest: string): Request {
    CommandRequest(host, "kubectl", ["apply", "-f", "-"]).(stdin := Some(manifest))
  }

  /** ApplyClusterRoleBinding (rbac.go:15-49); `sent` lists the runner calls made. */
  method ApplyClusterRoleBinding(r: CmdRunner, host: Host, name: string, clusterRole: string, ns: string, sa: string)
    returns (err: Option<Error>, ghost sent: seq<Request>)
    ensures sent == [ApplyRequest(host, Manifest(name, clusterRole, ns, sa))]
    ensures var reply := Reply(Resolve(r), ApplyRequest(host, Manifest(name, clusterRole, ns, sa)), host, 0);
      && (err.None? <==> reply.err.None?)
      && (err.Some? ==> Unwrap(err.value) == WrapsError(reply.err.value)
                        && Message(err.value) == ApplyFailedPrefix + Message(reply.err.value))
  {
    var runner := r;
    if runner.Nil? {
      runner := Default;
    }

    var manifest := Manifest(name, clusterRole, ns, sa);
    var cmd := new Cmd.Command(host, "kubectl", ["apply", "-f", "-"]);
    cmd.stdin := Some(manifest);
    sent := [cmd.Snapshot()];

    var stdout, e := Call(runner, cmd, host, 0);
    // The trimmed stdout is only logged.
    if e.Some? {
      return Some(ApplyFailed(e.value)), sent;
    }
    return None, sent;
  }

  /** The command vector is `kubectl apply -f -`; the manifest goes on stdin, not as a file. */
  lemma ApplyRequestShape(host: Host, manifest: string)
    ensures ApplyRequest(host, manifest).args == ["kubectl", "apply", "-f", "-"]
    ensures ApplyRequest(host, manifest).stdin == Some(manifest)
  {
  }

  /**
   * For single-line values the manifest's lines are the template's, with each
   * value as the whole remainder of its field's line.
   */
  lemma ManifestFields(name: string, clusterRole: string, ns: string, sa: string)
    requires '\n' !in name && '\n' !in clusterRole && '\n' !in ns && '\n' !in sa
    ensures var lines := Split(Manifest(name, clusterRole, ns, sa), '\n');
      && lines == ManifestLines(name, clusterRole, ns, sa) + [""]
      && TrimPrefix(lines[3], "  name: ") == name
      && TrimPrefix(lines[7], "  name: ") == clusterRole
      && TrimPrefix(lines[10], "  name: ") == sa
      && TrimPrefix(lines[11], "  namespace: ") == ns
  {
    var ls := ManifestLines(name, clusterRole, ns, sa);
    ManifestLinesSingle(name, clusterRole, ns, sa);
    SplitTerminated(ls);
    FieldValue("  name: ", name);
    FieldValue("  name: ", clusterRole);
    FieldValue("  name: ", sa);
    FieldValue("  namespace: ", ns);
  }

  lemma FieldValue(key: string, value: string)
    ensures TrimPrefix(key + value, key) == value
  {
    assert (key + value)[..|key|] == key;
    assert (key + value)[|key|..] == value;
  }

  lemma ManifestLinesSingle(name: string, clusterRole: string, ns: string, sa: string)
    requires '\n' !in name && '\n' !in clusterRole && '\n' !in ns && '\n' !in sa
    ensures forall k :: 0 <= k < |ManifestLines(name, clusterRole, ns, sa)| ==> '\n' !in ManifestLines(name, clusterRole, ns, sa)[k]
  {
    var ls := ManifestLines(name, clusterRole, ns, sa);
    NoNewlineAfter("  name: ", name);
    NoNewlineAfter("  name: ", clusterRole);
    NoNewlineAfter("  name: ", sa);
    NoNewlineAfter("  namespace: ", ns);
    forall k | 0 <= k < |ls| ensures '\n' !in ls[k] {
      if k in {0, 1, 2, 4, 5, 6, 8, 9} {
        TemplateLinesSingle(k);
      }
    }
  }

  lemma NoNewlineAfter(key: string, value: string)
    requires '\n' !in key && '\n' !in value
    ensures '\n' !in key + value
  {
  }

  /** No rune of `s` is a newline. */
  predicate SingleLine(s: string) {
    forall i :: 0 <= i < |s| ==> s[i] != '\n'
  }

  /** The template's fixed lines hold no newline. */
  lemma TemplateLinesSingle(k: nat)
    requires k in {0, 1, 2, 4, 5, 6, 8, 9}
    ensures '\n' !in ManifestLines("", "", "", "")[k]
  {
    var ls := ManifestLines("", "", "", "");
    if k == 0 {
      assert SingleLine(ls[0]);
    } else if k == 1 {
      assert SingleLine(ls[1]);
    } else if k == 2 {
      assert SingleLine(ls[2]);
    } else if k == 4 {
      assert SingleLine(ls[4]);
    } else if k == 5 {
      assert SingleLine(ls[5]);
    } else if k == 6 {
      assert SingleLine(ls[6]);
    } else if k == 8 {
      assert SingleLine(ls[8]);
    } else {
      assert SingleLine(ls[9]);
    }
  }

  /**
   * Each value is inserted verbatim, without escaping, whatever it contains,
   * as the rest of its key's line: line k starts right after the first k
   * newline-terminated template lines.
   */
  lemma ManifestVerbatim(name: string, clusterRole: string, ns: string, sa: string)
    ensures var m := Manifest(name, clusterRole, ns, sa);
      var ls := ManifestLines(name, clusterRole, ns, sa);
      && OccursAt(m, "  name: " + name + "\n", |Terminated(ls[..3])|)
      && OccursAt(m, "  name: " + clusterRole + "\n", |Terminated(ls[..7])|)
      && OccursAt(m, "  name: " + sa + "\n", |Terminated(ls[..10])|)
      && OccursAt(m, "  namespace: " + ns + "\n", |Terminated(ls[..11])|)
  {
    var ls := ManifestLines(name, clusterRole, ns, sa);
    TerminatedHasLine(ls, 3);
    TerminatedHasLine(ls, 7);
    TerminatedHasLine(ls, 10);
    TerminatedHasLine(ls, 11);
  }
}
