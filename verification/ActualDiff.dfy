/**
 The second diff builder (`local-agent/internal/actualdiff/actualdiff.go`, `FromProposed`), used
 when the Hub has no registered workspace. It reads old texts through a callback and refuses
 nothing, so its agreement with `Propose` is stated for lists that `Propose` accepts.
 */
module ActualDiff {
  import opened Wrappers
  import opened Changes
  import opened UnifiedDiff
  import opened Proposing

  function TrimSlash(path: string): string { if path != "" && path[0] == '/' then path[1..] else path }

  function PartsOf(ch: FileChange, oldContent: string -> string): seq<FileDiff> {
    var path, target := TrimSlash(ch.path), TrimSlash(ch.target);
    if path == "" then []
    else
      match ch.operation
      case Create => [FileDiff(path, "", ch.content)]
      case Delete => [FileDiff(path, oldContent(path), "")]
      case Rename =>
        [FileDiff(path, oldContent(path), "")]
        + (if target == "" then []
           else [FileDiff(target, "", if ch.content == "" then oldContent(path) else ch.content)])
      case _ => [FileDiff(path, oldContent(path), ch.content)]
  }

  function AllParts(changes: seq<FileChange>, oldContent: string -> string): seq<FileDiff> {
    if changes == [] then []
    else AllParts(changes[..|changes| - 1], oldContent) + PartsOf(changes[|changes| - 1], oldContent)
  }

  /** The diff of a proposal with the names it is sent under. */
  datatype BuiltDiff = BuiltDiff(changeSetId: string, workspaceId: string, diff: string, diffHash: string)

  function BuiltFrom(hash: string -> string, changeSetId: string, workspaceId: string, diff: string): BuiltDiff {
    BuiltDiff(changeSetId, workspaceId, diff, hash(diff))
  }

  /** The joined text under its names and hash, or None without a change-set id. */
  method FromProposed(
    hash: string -> string, changeSetId: string, workspaceId: string, changes: seq<FileChange>,
        oldContent: string -> string)
    returns (built: Option<BuiltDiff>)
    ensures changeSetId == "" ==> built == None
    ensures changeSetId != "" ==>
              built == Some(BuiltFrom(hash, changeSetId, workspaceId,
                  JoinedDiff(SortByPath(AllParts(changes, oldContent)))))
  {
    if changeSetId == "" {
      return None;
    }
    var parts: seq<FileDiff> := [];
    for k := 0 to |changes|
      invariant parts == AllParts(changes[..k], oldContent)
    {
      assert changes[..k + 1][..k] == changes[..k];
      var path := TrimSlash(changes[k].path);
      if path == "" {
        continue;
      }
      var was := oldContent(path);
      match changes[k].operation {
        case Create => parts := parts + [FileDiff(path, "", changes[k].content)];
        case Delete => parts := parts + [FileDiff(path, was, "")];
        case Rename =>
          var target := TrimSlash(changes[k].target);
          var content := changes[k].content;
          if content == "" {
            content := was;
          }
          parts := parts + [FileDiff(path, was, "")];
          if target != "" {
            parts := parts + [FileDiff(target, "", content)];
          }
        case _ => parts := parts + [FileDiff(path, was, changes[k].content)];
      }
    }
    assert changes[..|changes|] == changes;
    return Some(BuiltFrom(hash, changeSetId, workspaceId, JoinedDiff(SortByPath(parts))));
  }

  /** The Hub's callback: the file's text, or nothing when it cannot be read. */
  function ReadOld(host: Host, files: Files, maxBytes: int): string -> string {
    path => match ReadTextFile(host, files, path, maxBytes) case Ok(text) => text case Err(_) => ""
  }

  /** Both the path and the rename target are already in the form `Propose` brings them to. */
  predicate CleanChange(host: Host, ch: FileChange) {
    && Cleaned(host, ch) == ch
    && ch.path != "" && ch.path[0] != '/'
    && (ch.operation == Rename ==> ch.target != "" && ch.target[0] != '/')
  }

  lemma OneChangeAgrees(host: Host, files: Files, maxBytes: int, ch: FileChange)
    requires CleanChange(host, ch) && ChangeEntries(host, files, maxBytes, ch).Ok?
    ensures PartsOf(ch, ReadOld(host, files, maxBytes)) == Diffs(ChangeEntries(host, files, maxBytes, ch).value)
  {
    var own := ChangeEntries(host, files, maxBytes, ch).value;
    OneOrTwo([], own);
  }

  lemma {:induction false} PartsAgree(host: Host, files: Files, maxBytes: int, changes: seq<FileChange>)
    requires Entries(host, files, maxBytes, changes).Ok?
    requires forall ch :: ch in changes ==> CleanChange(host, ch)
    ensures AllParts(changes, ReadOld(host, files, maxBytes)) == Diffs(Entries(host, files, maxBytes, changes).value)
  {
    if changes != [] {
      var n := |changes| - 1;
      assert changes[n] in changes;
      PartsAgree(host, files, maxBytes, changes[..n]) by {
        EntriesConcat(host, files, maxBytes, changes[..n], changes[n..]);
        assert changes == changes[..n] + changes[n..];
      }
      OneMoreChange(host, files, maxBytes, changes, n, Entries(host, files, maxBytes, changes[..n]).value) by {
        EntriesConcat(host, files, maxBytes, changes[..n], changes[n..]);
        assert changes == changes[..n] + changes[n..];
      }
      assert changes[..n + 1] == changes;
      OneChangeAgrees(host, files, maxBytes, changes[n]);
    }
  }

  /** On clean paths both builders print the same text for every list that `Propose` accepts. */
  lemma BuildersAgree(host: Host, ws: Workspace, cs: ChangeSet, maxBytes: int)
    requires ProposeOf(host, ws, cs, maxBytes).Ok?
    requires forall ch :: ch in cs.changes ==> CleanChange(host, ch)
    ensures JoinedDiff(SortByPath(AllParts(cs.changes, ReadOld(host, ws.files, maxBytes))))
            == ProposeOf(host, ws, cs, maxBytes).value.diff
  {
    assert CleanedAll(host, cs.changes) == cs.changes by {
      forall k | 0 <= k < |cs.changes| ensures CleanedAll(host, cs.changes)[k] == cs.changes[k] {
        assert CleanChange(host, cs.changes[k]);
      }
    }
    PartsAgree(host, ws.files, maxBytes, cs.changes);
  }
}
