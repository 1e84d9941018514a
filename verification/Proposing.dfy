/**
 Building a proposal (`local-agent/internal/workspace/propose.go`, `Propose`,
 `validateChangeConflicts`, `readExistingForChange`). `Entries` is what a change list asks for;
 the loops are proved to compute it.
 */
module Proposing {
  import opened Changes
  import opened UnifiedDiff

  // ----- One change -----

  /** One touched path: the diff printed for it and the state planned for it. */
  datatype Entry = Entry(diff: FileDiff, plan: Planned)

  function Cleaned(host: Host, ch: FileChange): FileChange {
    ch.(path := host.clean(ch.path), target := host.clean(ch.target))
  }

  function CleanedAll(host: Host, changes: seq<FileChange>): seq<FileChange> {
    seq(|changes|, i requires 0 <= i < |changes| => Cleaned(host, changes[i]))
  }

  function ReadTextFile(host: Host, files: Files, path: string, maxBytes: int): Result<string> {
    if !host.inside(path) then Err(InvalidPath)
    else if path !in files then Err(FileNotFound)
    else if maxBytes > 0 && |files[path]| > maxBytes then Err(FileTooLarge)
    else if !host.isText(files[path]) then Err(InvalidArgument)
    else Ok(files[path])
  }

  function ReadExisting(host: Host, files: Files, path: string, baseHash: string, maxBytes: int): Result<string> {
    match ReadTextFile(host, files, path, maxBytes)
    case Err(code) => Err(code)
    case Ok(content) =>
      if baseHash != "" && host.hash(content) != baseHash then Err(FileHashMismatch) else Ok(content)
  }

  predicate ExistsFile(host: Host, files: Files, path: string) { host.inside(path) && path in files }

  /** What one change with clean paths asks for on the files `files`. */
  function ChangeEntries(host: Host, files: Files, maxBytes: int, ch: FileChange): Result<seq<Entry>> {
    match ch.operation
    case Create =>
      if !host.inside(ch.path) then Err(InvalidPath)
      else if ExistsFile(host, files, ch.path) then Err(InvalidChangeSet)
      else Ok([Entry(FileDiff(ch.path, "", ch.content), Write(ch.content))])
    case Modify =>
      (match ReadExisting(host, files, ch.path, ch.baseHash, maxBytes)
       case Err(code) => Err(code)
       case Ok(was) => Ok([Entry(FileDiff(ch.path, was, ch.content), Write(ch.content))]))
    case Delete =>
      (match ReadExisting(host, files, ch.path, ch.baseHash, maxBytes)
       case Err(code) => Err(code)
       case Ok(was) => Ok([Entry(FileDiff(ch.path, was, ""), Remove)]))
    case Rename =>
      if !host.inside(ch.target) then Err(InvalidPath)
      else if ExistsFile(host, files, ch.target) then Err(InvalidChangeSet)
      else
        (match ReadExisting(host, files, ch.path, ch.baseHash, maxBytes)
         case Err(code) => Err(code)
         case Ok(was) =>
           var content := if ch.content == "" then was else ch.content;
           Ok([Entry(FileDiff(ch.path, was, ""), Remove),
               Entry(FileDiff(ch.target, "", content), Write(content))]))
    case Unknown => Err(InvalidChangeSet)
  }

  /** The entries of a change list, or the first error in list order. */
  function Entries(host: Host, files: Files, maxBytes: int, changes: seq<FileChange>): Result<seq<Entry>> {
    if changes == [] then Ok([])
    else
      match ChangeEntries(host, files, maxBytes, changes[0])
      case Err(code) => Err(code)
      case Ok(own) =>
        match Entries(host, files, maxBytes, changes[1..])
        case Err(code) => Err(code)
        case Ok(rest) => Ok(own + rest)
  }

  function Diffs(entries: seq<Entry>): seq<FileDiff> {
    if entries == [] then [] else [entries[0].diff] + Diffs(entries[1..])
  }

  /** Later entries overwrite earlier ones, as the assignments to the plan do. */
  function PlanOf(entries: seq<Entry>): Plan {
    if entries == [] then map[]
    else PlanOf(entries[..|entries| - 1])[entries[|entries| - 1].diff.path := entries[|entries| - 1].plan]
  }

  // ----- Stable sort by path -----

  function Insert(d: FileDiff, sorted: seq<FileDiff>): seq<FileDiff> {
    if sorted == [] || Before(d.path, sorted[0].path) then [d] + sorted
    else [sorted[0]] + Insert(d, sorted[1..])
  }

  function SortByPath(parts: seq<FileDiff>): seq<FileDiff> {
    if parts == [] then [] else Insert(parts[|parts| - 1], SortByPath(parts[..|parts| - 1]))
  }

  function DiffTextOf(entries: seq<Entry>): string { JoinedDiff(SortByPath(Diffs(entries))) }

  // ----- Conflicts inside a change list -----

  /** The order-dependent check that runs before any file is looked at. */
  ghost predicate NoConflicts(changes: seq<FileChange>) {
    && (forall i, j :: 0 <= i < j < |changes| ==> changes[i].path != changes[j].path)
    && (forall i, j | 0 <= i <= j < |changes| ::
          changes[j].operation == Rename ==> changes[i].path != changes[j].target)
    && (forall i, j | 0 <= i < j < |changes| ::
          changes[i].operation == Rename && changes[j].operation == Rename ==> changes[i].target != changes[j].target)
    && (forall i, j | 0 <= i < |changes| && 0 <= j < |changes| ::
          changes[i].operation == Create && changes[j].operation == Rename ==> changes[i].path != changes[j].target)
  }

  /** The paths and rename targets of the first `k` changes. */
  ghost predicate SeenSoFar(changes: seq<FileChange>, k: nat, paths: set<string>, targets: set<string>) {
    && k <= |changes|
    && (forall p :: p in paths <==> exists i :: 0 <= i < k && changes[i].path == p)
    && (forall t :: t in targets <==>
          exists i :: 0 <= i < k && changes[i].operation == Rename && changes[i].target == t)
  }

  /** The first `k` changes pass the first loop. */
  ghost predicate FreeSoFar(changes: seq<FileChange>, k: nat) {
    && k <= |changes|
    && (forall i, j :: 0 <= i < j < k ==> changes[i].path != changes[j].path)
    && (forall i, j | 0 <= i <= j < k :: changes[j].operation == Rename ==> changes[i].path != changes[j].target)
    && (forall i, j | 0 <= i < j < k ::
          changes[i].operation == Rename && changes[j].operation == Rename ==> changes[i].target != changes[j].target)
  }

  lemma SeeOneMore(changes: seq<FileChange>, k: nat, paths: set<string>, targets: set<string>)
    requires SeenSoFar(changes, k, paths, targets) && k < |changes|
    ensures SeenSoFar(changes, k + 1, paths + {changes[k].path},
                      if changes[k].operation == Rename then targets + {changes[k].target} else targets)
  {
  }

  /** Whether the next change passes as well. */
  lemma FreeOneMore(changes: seq<FileChange>, k: nat, paths: set<string>, targets: set<string>)
    requires SeenSoFar(changes, k, paths, targets) && FreeSoFar(changes, k) && k < |changes|
    ensures var ch := changes[k];
            FreeSoFar(changes, k + 1) <==>
              ch.path !in paths
              && (ch.operation == Rename ==>
                    ch.target != ch.path && ch.target !in targets && ch.target !in paths + {ch.path})
  {
  }

  lemma FreeFrom(changes: seq<FileChange>, k: nat)
    requires NoConflicts(changes) && k <= |changes|
    ensures FreeSoFar(changes, k)
  {
  }

  lemma FreeAtLast(changes: seq<FileChange>, paths: set<string>, targets: set<string>)
    requires SeenSoFar(changes, |changes|, paths, targets) && FreeSoFar(changes, |changes|)
    ensures NoConflicts(changes) <==>
            forall i :: 0 <= i < |changes| && changes[i].operation == Create ==> changes[i].path !in targets
  {
  }

  method ValidateChangeConflicts(changes: seq<FileChange>) returns (ok: bool)
    ensures ok <==> NoConflicts(changes)
  {
    var seenPath: map<string, Operation> := map[];
    var seenTarget: set<string> := {};
    for k := 0 to |changes|
      invariant SeenSoFar(changes, k, seenPath.Keys, seenTarget) && FreeSoFar(changes, k)
    {
      SeeOneMore(changes, k, seenPath.Keys, seenTarget);
      FreeOneMore(changes, k, seenPath.Keys, seenTarget);
      if NoConflicts(changes) {
        FreeFrom(changes, k + 1);
      }
      hide SeenSoFar, FreeSoFar, NoConflicts;
      var ch := changes[k];
      if ch.path in seenPath {
        return false;
      }
      assert seenPath[ch.path := ch.operation].Keys == seenPath.Keys + {ch.path};
      seenPath := seenPath[ch.path := ch.operation];
      if ch.operation == Rename {
        if ch.target == ch.path || ch.target in seenTarget || ch.target in seenPath {
          return false;
        }
        seenTarget := seenTarget + {ch.target};
      }
    }
    FreeAtLast(changes, seenPath.Keys, seenTarget);
    ok := NoTargetCreated(changes, seenTarget);
  }

  /** The second pass: no path that a change creates is a rename target. */
  method NoTargetCreated(changes: seq<FileChange>, targets: set<string>) returns (ok: bool)
    ensures ok <==> forall i :: 0 <= i < |changes| && changes[i].operation == Create ==> changes[i].path !in targets
  {
    for k := 0 to |changes|
      invariant forall i :: 0 <= i < k && changes[i].operation == Create ==> changes[i].path !in targets
    {
      if changes[k].operation == Create && changes[k].path in targets {
        return false;
      }
    }
    return true;
  }

  // ----- The proposal -----

  predicate Validate(host: Host, cs: ChangeSet) {
    && host.isChangeSetId(cs.id)
    && (cs.workspaceId != "" ==> host.isWorkspaceId(cs.workspaceId))
    && cs.changes != []
    && forall ch :: ch in cs.changes ==>
         && ch.path != ""
         && ch.operation != Unknown
         && (ch.NeedsBase() ==> ch.baseHash != "")
         && (ch.operation == Rename ==> ch.target != "")
  }

  ghost function ProposeOf(host: Host, ws: Workspace, cs: ChangeSet, maxBytes: int): Result<Proposal> {
    if !Validate(host, cs) then Err(InvalidChangeSet)
    else if cs.workspaceId != "" && cs.workspaceId != ws.id then Err(InvalidArgument)
    else if cs.base == Malformed then Err(InvalidArgument)
    else if cs.base.At? && cs.base.revision != ws.revision then Err(WorkspaceStale)
    else if !NoConflicts(CleanedAll(host, cs.changes)) then Err(InvalidChangeSet)
    else
      match Entries(host, ws.files, maxBytes, CleanedAll(host, cs.changes))
      case Err(code) => Err(code)
      case Ok(entries) =>
        var text := DiffTextOf(entries);
        Ok(Proposal(cs.(workspaceId := ws.id), text, host.hash(text), ws.revision, PlanOf(entries), false, false))
  }

  lemma {:induction false} EntriesConcat(host: Host, files: Files, maxBytes: int, a: seq<FileChange>,
    b: seq<FileChange>)
    ensures Entries(host, files, maxBytes, a + b) ==
            match Entries(host, files, maxBytes, a)
            case Err(code) => Err(code)
            case Ok(ea) =>
              match Entries(host, files, maxBytes, b)
              case Err(code) => Err(code)
              case Ok(eb) => Ok(ea + eb)
  {
    hide ChangeEntries;
    if a == [] {
      assert a + b == b;
      var eb := Entries(host, files, maxBytes, b);
      assert eb.Ok? ==> [] + eb.value == eb.value;
    } else {
      EntriesConcat(host, files, maxBytes, a[1..], b);
      assert (a + b)[1..] == a[1..] + b;
      var own := ChangeEntries(host, files, maxBytes, a[0]);
      var ea, eb := Entries(host, files, maxBytes, a[1..]), Entries(host, files, maxBytes, b);
      if own.Ok? && ea.Ok? && eb.Ok? {
        assert (own.value + ea.value) + eb.value == own.value + (ea.value + eb.value);
      }
    }
  }

  lemma {:induction false} DiffsConcat(a: seq<Entry>, b: seq<Entry>)
    ensures Diffs(a + b) == Diffs(a) + Diffs(b)
  {
    if a == [] {
      assert a + b == b;
    } else {
      DiffsConcat(a[1..], b);
      assert (a + b)[1..] == a[1..] + b;
    }
  }

  lemma PlanSnoc(a: seq<Entry>, e: Entry)
    ensures PlanOf(a + [e]) == PlanOf(a)[e.diff.path := e.plan]
  {
    assert (a + [e])[..|a|] == a;
  }

  /** Appending the diffs and plan entries of one more change, as the loop body does. */
  lemma OneMoreChange(host: Host, files: Files, maxBytes: int, changes: seq<FileChange>, k: nat, entries: seq<Entry>)
    requires k < |changes| && Entries(host, files, maxBytes, changes[..k]) == Ok(entries)
    ensures var own := ChangeEntries(host, files, maxBytes, changes[k]);
            && (own.Err? ==> Entries(host, files, maxBytes, changes) == Err(own.code))
            && (own.Ok? ==> Entries(host, files, maxBytes, changes[..k + 1]) == Ok(entries + own.value)
                            && Diffs(entries + own.value) == Diffs(entries) + Diffs(own.value))
  {
    var own := ChangeEntries(host, files, maxBytes, changes[k]);
    EntriesConcat(host, files, maxBytes, changes[..k], changes[k..]);
    assert changes[..k] + changes[k..] == changes;
    EntriesConcat(host, files, maxBytes, changes[..k], [changes[k]]);
    assert changes[..k] + [changes[k]] == changes[..k + 1];
    if own.Ok? {
      assert own.value + [] == own.value;
      DiffsConcat(entries, own.value);
    }
  }

  lemma OneOrTwo(entries: seq<Entry>, own: seq<Entry>)
    ensures |own| == 1 ==> Diffs(own) == [own[0].diff]
    ensures |own| == 2 ==> Diffs(own) == [own[0].diff, own[1].diff]
    ensures |own| == 1 ==> PlanOf(entries + own) == PlanOf(entries)[own[0].diff.path := own[0].plan]
    ensures |own| == 2 ==>
              PlanOf(entries + own)
              == PlanOf(entries)[own[0].diff.path := own[0].plan][own[1].diff.path := own[1].plan]
  {
    if |own| == 1 {
      assert own == [own[0]];
      PlanSnoc(entries, own[0]);
    } else if |own| == 2 {
      assert own[1..] == [own[1]] && Diffs([own[1]]) == [own[1].diff];
      assert entries + own == (entries + [own[0]]) + [own[1]];
      PlanSnoc(entries, own[0]);
      PlanSnoc(entries + [own[0]], own[1]);
    }
  }

  method ReadExistingForChange(host: Host, files: Files, path: string, baseHash: string, maxBytes: int)
    returns (r: Result<string>)
    ensures r == ReadExisting(host, files, path, baseHash, maxBytes)
  {
    r := ReadTextFile(host, files, path, maxBytes);
    if r.Ok? && baseHash != "" && host.hash(r.value) != baseHash {
      r := Err(FileHashMismatch);
    }
  }

  /** The loop of `Propose` over a conflict-free list: fills the diff parts and the plan. */
  method Collect(host: Host, files: Files, maxBytes: int, changes: seq<FileChange>)
    returns (r: Result<(seq<FileDiff>, Plan)>)
    ensures match Entries(host, files, maxBytes, changes)
            case Err(code) => r == Err(code)
            case Ok(entries) => r == Ok((Diffs(entries), PlanOf(entries)))
  {
    var parts: seq<FileDiff> := [];
    var planned: Plan := map[];
    ghost var entries: seq<Entry> := [];
    for k := 0 to |changes|
      invariant Entries(host, files, maxBytes, changes[..k]) == Ok(entries)
      invariant parts == Diffs(entries) && planned == PlanOf(entries)
    {
      var ch := changes[k];
      OneMoreChange(host, files, maxBytes, changes, k, entries);
      ghost var own := ChangeEntries(host, files, maxBytes, ch);
      if own.Ok? {
        OneOrTwo(entries, own.value);
      }
      match ch.operation {
        case Create =>
          if !host.inside(ch.path) {
            return Err(InvalidPath);
          }
          if ExistsFile(host, files, ch.path) {
            return Err(InvalidChangeSet);
          }
          parts := parts + [FileDiff(ch.path, "", ch.content)];
          planned := planned[ch.path := Write(ch.content)];
        case Modify =>
          var was := ReadExistingForChange(host, files, ch.path, ch.baseHash, maxBytes);
          if was.Err? {
            return Err(was.code);
          }
          parts := parts + [FileDiff(ch.path, was.value, ch.content)];
          planned := planned[ch.path := Write(ch.content)];
        case Delete =>
          var was := ReadExistingForChange(host, files, ch.path, ch.baseHash, maxBytes);
          if was.Err? {
            return Err(was.code);
          }
          parts := parts + [FileDiff(ch.path, was.value, "")];
          planned := planned[ch.path := Remove];
        case Rename =>
          if !host.inside(ch.target) {
            return Err(InvalidPath);
          }
          if ExistsFile(host, files, ch.target) {
            return Err(InvalidChangeSet);
          }
          var was := ReadExistingForChange(host, files, ch.path, ch.baseHash, maxBytes);
          if was.Err? {
            return Err(was.code);
          }
          var content := ch.content;
          if content == "" {
            content := was.value;
          }
          parts := parts + [FileDiff(ch.path, was.value, "")];
          parts := parts + [FileDiff(ch.target, "", content)];
          planned := planned[ch.path := Remove];
          planned := planned[ch.target := Write(content)];
        case Unknown =>
          return Err(InvalidChangeSet);
      }
      entries := entries + own.value;
    }
    assert changes[..|changes|] == changes;
    return Ok((parts, planned));
  }

  method Propose(host: Host, ws: Workspace, cs: ChangeSet, maxBytes: int) returns (r: Result<Proposal>)
    ensures r == ProposeOf(host, ws, cs, maxBytes)
  {
    if !Validate(host, cs) {
      return Err(InvalidChangeSet);
    }
    if cs.workspaceId != "" && cs.workspaceId != ws.id {
      return Err(InvalidArgument);
    }
    if cs.base == Malformed {
      return Err(InvalidArgument);
    }
    if cs.base.At? && cs.base.revision != ws.revision {
      return Err(WorkspaceStale);
    }
    var changes := CleanedAll(host, cs.changes);
    var ok := ValidateChangeConflicts(changes);
    if !ok {
      return Err(InvalidChangeSet);
    }
    var collected := Collect(host, ws.files, maxBytes, changes);
    if collected.Err? {
      return Err(collected.code);
    }
    var (parts, planned) := collected.value;
    var text := JoinedDiff(SortByPath(parts));
    return Ok(Proposal(cs.(workspaceId := ws.id), text, host.hash(text), ws.revision, planned, false, false));
  }
}
