/**
 Change sets, workspaces and plans of the Local Agent (`protocol/messages/messages.go`,
 `local-agent/internal/workspace/propose.go`): the data the change pipeline passes along.
 */
module Changes {

  datatype Code =
    | InvalidArgument | InvalidChangeSet | InvalidPath | FileNotFound | FileTooLarge
    | FileHashMismatch | WorkspaceStale | WorkspaceNotFound | WorkspaceFileChanged
    | DiffMismatch | ApplyFailed | ChangeSetNotFound | ApprovalRequired | ApprovalInvalid
    | InternalError

  datatype Result<+T> = Ok(value: T) | Err(code: Code)

  /** Unknown stands for any operation name the protocol does not define. */
  datatype Operation = Create | Modify | Delete | Rename | Unknown

  datatype FileChange =
    FileChange(path: string, operation: Operation, baseHash: string, content: string, target: string)
  {
    /** Modify, Delete and Rename start from a file that must exist. */
    predicate NeedsBase() { operation == Modify || operation == Delete || operation == Rename }
  }

  datatype BaseRevision = Unset | Malformed | At(revision: int)

  datatype ChangeSet =
    ChangeSet(id: string, workspaceId: string, base: BaseRevision, changes: seq<FileChange>)

  /** The files of a workspace by path; directories are not modelled. */
  type Files = map<string, string>

  /** What the pipeline asks of the operating system and of the identifier rules. */
  datatype Host = Host(
    clean: string -> string,        // slash-separated, cleaned form of a path
    inside: string -> bool,         // the path resolves to a place inside the workspace
    hash: string -> string,
    isText: string -> bool,         // valid UTF-8
    isChangeSetId: string -> bool,
    isWorkspaceId: string -> bool)

  ghost predicate Injective(f: string -> string) {
    forall x, y :: f(x) == f(y) ==> x == y
  }

  /** Intended end state of one path. */
  datatype Planned = Remove | Write(content: string)

  type Plan = map<string, Planned>

  datatype Workspace = Workspace(id: string, revision: int, files: Files)

  datatype Proposal = Proposal(
    changeSet: ChangeSet,
    diff: string,
    diffHash: string,
    baseRevision: int,
    planned: Plan,
    applied: bool,
    applying: bool)

  // ----- Byte order of paths -----

  predicate Before(a: string, b: string) {
    b != "" && (a == "" || a[0] < b[0] || (a[0] == b[0] && Before(a[1..], b[1..])))
  }

  lemma {:induction false} BeforeTransitive(a: string, b: string, c: string)
    requires Before(a, b) && Before(b, c)
    ensures Before(a, c)
  {
    if a != "" && a[0] == b[0] == c[0] {
      BeforeTransitive(a[1..], b[1..], c[1..]);
    }
  }

  lemma {:induction false} BeforeIrreflexive(a: string)
    ensures !Before(a, a)
  {
    if a != "" {
      BeforeIrreflexive(a[1..]);
    }
  }

  lemma {:induction false} BeforeTotal(a: string, b: string)
    ensures Before(a, b) || a == b || Before(b, a)
  {
    if a != "" && b != "" && a[0] == b[0] {
      BeforeTotal(a[1..], b[1..]);
      assert a == [a[0]] + a[1..] && b == [b[0]] + b[1..];
    }
  }

  /** A path comes before every longer path it begins. */
  lemma {:induction false} BeforeExtension(a: string, suffix: string)
    requires suffix != ""
    ensures Before(a, a + suffix)
  {
    if a != "" {
      BeforeExtension(a[1..], suffix);
      assert (a + suffix)[1..] == a[1..] + suffix;
    }
  }
}
