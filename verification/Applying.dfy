/**
 The whole apply operation (`local-agent/internal/workspace/apply.go`, `ApplyChanges`): claim the
 stored proposal, revalidate it against the disk, put every planned path in place, finish or
 release the claim. Putting all paths in place is applying the plan, except for deletes that a
 wrong probe skips; a failure loses exactly the files at the staging paths it had used and those
 that a wrong probe missed.
 */
module Applying {
  import opened Wrappers
  import opened Changes
  import opened Proposing
  import opened ExecutionLaws
  import opened ProposalStore
  import opened DiskApply

  // ----- Sorted paths of a plan -----

  function InsertPath(p: string, sorted: seq<string>): seq<string> {
    if sorted == [] || Before(p, sorted[0]) then [p] + sorted else [sorted[0]] + InsertPath(p, sorted[1..])
  }

  lemma {:induction false} InsertPathAscends(p: string, sorted: seq<string>)
    requires Ascending(sorted) && p !in sorted
    ensures Ascending(InsertPath(p, sorted))
    ensures forall q :: q in InsertPath(p, sorted) <==> q == p || q in sorted
  {
    if sorted == [] {
    } else if Before(p, sorted[0]) {
      forall k | 0 < k < |sorted| ensures Before(p, sorted[k]) {
        BeforeTransitive(p, sorted[0], sorted[k]);
      }
    } else {
      BeforeTotal(p, sorted[0]);
      InsertPathAscends(p, sorted[1..]);
      var rest := InsertPath(p, sorted[1..]);
      forall k | 0 <= k < |rest| ensures Before(sorted[0], rest[k]) {
        assert rest[k] in rest;
      }
    }
  }

  method SortedPaths(plan: Plan) returns (paths: seq<string>)
    ensures PlanPaths(paths, plan)
  {
    paths := [];
    var left := plan.Keys;
    while left != {}
      invariant left <= plan.Keys
      invariant Ascending(paths)
      invariant forall p :: p in paths <==> p in plan && p !in left
      decreases left
    {
      var p :| p in left;
      InsertPathAscends(p, paths);
      paths := InsertPath(p, paths);
      left := left - {p};
    }
  }

  /** A plan has one list of paths in ascending order. */
  lemma {:induction false} PlanPathsUnique(a: seq<string>, b: seq<string>)
    requires Ascending(a) && Ascending(b) && forall p :: p in a <==> p in b
    ensures a == b
  {
    if a == [] {
      assert forall i :: 0 <= i < |b| ==> b[i] in b;
    } else {
      assert a[0] in b;
      FirstIsLeast(a, b[0]);
      FirstIsLeast(b, a[0]);
      BeforeBothWays(a[0], b[0]);
      forall p ensures p in a[1..] <==> p in b[1..] {
        RestWithoutFirst(a, p);
        RestWithoutFirst(b, p);
      }
      PlanPathsUnique(a[1..], b[1..]);
      assert a == [a[0]] + a[1..] && b == [b[0]] + b[1..];
    }
  }

  lemma BeforeBothWays(a: string, b: string)
    requires (a == b || Before(a, b)) && (b == a || Before(b, a))
    ensures a == b
  {
    if a != b {
      BeforeTransitive(a, b, a);
      BeforeIrreflexive(a);
    }
  }

  lemma FirstIsLeast(a: seq<string>, p: string)
    requires Ascending(a) && p in a
    ensures a[0] == p || Before(a[0], p)
  {
  }

  lemma RestWithoutFirst(a: seq<string>, p: string)
    requires Ascending(a) && a != []
    ensures p in a[1..] <==> p in a && p != a[0]
  {
    assert a == [a[0]] + a[1..];
    if p in a[1..] {
      var i :| 0 <= i < |a| - 1 && a[1..][i] == p;
      assert a[i + 1] == p;
      BeforeIrreflexive(p);
    }
  }

  // ----- Progress through all paths is the plan -----

  ghost predicate StagedBy(plan: Plan, paths: seq<string>, q: string)
    requires forall p :: p in paths ==> p in plan
  {
    exists p :: p in paths && plan[p].Write? && q == TmpOf(p)
  }

  /** What path `q` looks like in `now` once the paths `done` were handled. */
  ghost predicate StateAt(files: Files, plan: Plan, missed: set<string>, done: seq<string>, now: Files, q: string)
    requires forall p :: p in done ==> p in plan
  {
    if q in done && !Skips(plan, missed, q) then
      (q in now <==> plan[q].Write?) && (plan[q].Write? ==> now[q] == plan[q].content)
    else if StagedBy(plan, done, q) then q !in now
    else (q in now <==> q in files) && (q in files ==> now[q] == files[q])
  }

  /** A staging file sorts after every path handled so far. */
  lemma StagingNotHandled(paths: seq<string>, k: nat)
    requires Ascending(paths) && k < |paths|
    ensures TmpOf(paths[k]) !in paths[..k + 1] && paths[k] !in paths[..k]
  {
    TmpAfter(paths[k]);
    BeforeIrreflexive(paths[k]);
    BeforeIrreflexive(TmpOf(paths[k]));
    forall i | 0 <= i < k ensures paths[i] != TmpOf(paths[k]) {
      BeforeTransitive(paths[i], paths[k], TmpOf(paths[k]));
    }
  }

  lemma OneMoreState(
    files: Files, plan: Plan, missed: set<string>, done: seq<string>, now: Files, p: string, q: string)
    requires forall x :: x in done + [p] ==> x in plan
    requires p !in done && TmpOf(p) !in done && TmpOf(p) != p
    requires forall x :: x in done ==> x in plan
    requires StateAt(files, plan, missed, done, now, q)
    ensures StateAt(files, plan, missed, done + [p],
                    if Skips(plan, missed, p) then now else Touch(now, p, plan[p]), q)
  {
    assert forall x :: x in done + [p] <==> x in done || x == p;
    assert StagedBy(plan, done + [p], q) <==> StagedBy(plan, done, q) || (plan[p].Write? && q == TmpOf(p)) by {
      assert p in done + [p];
      if StagedBy(plan, done, q) {
        var x :| x in done && plan[x].Write? && q == TmpOf(x);
        assert x in done + [p];
      }
    }
  }

  /** The state of every path after the first `k` paths were handled. */
  lemma {:induction false} ProgressAt(
    files: Files, plan: Plan, missed: set<string>, paths: seq<string>, k: nat, q: string)
    requires PlanPaths(paths, plan) && k <= |paths|
    ensures StateAt(files, plan, missed, paths[..k], Progress(files, plan, missed, paths[..k]), q)
  {
    if k > 0 {
      ProgressAt(files, plan, missed, paths, k - 1, q);
      ProgressSnoc(files, plan, missed, paths, k - 1);
      TmpAfter(paths[k - 1]);
      StagingNotHandled(paths, k - 1);
      assert paths[..k] == paths[..k - 1] + [paths[k - 1]];
      OneMoreState(files, plan, missed, paths[..k - 1], Progress(files, plan, missed, paths[..k - 1]), paths[k - 1], q);
    }
  }

  /** What is carried out of a plan: a delete of a file that the probe missed is not. */
  function Carried(plan: Plan, missed: set<string>): Plan {
    map p | p in plan && !Skips(plan, missed, p) :: plan[p]
  }

  lemma AllCarried(plan: Plan)
    ensures Carried(plan, {}) == plan
  {
  }

  /** Handling all paths applies what is carried out of the plan to the disk without the staging files. */
  lemma ProgressIsPlan(files: Files, plan: Plan, missed: set<string>, paths: seq<string>)
    requires PlanPaths(paths, plan)
    ensures Progress(files, plan, missed, paths) == ApplyPlan(files - Staging(plan), Carried(plan, missed))
  {
    assert paths[..|paths|] == paths;
    var l, r := Progress(files, plan, missed, paths), ApplyPlan(files - Staging(plan), Carried(plan, missed));
    forall q ensures (q in l <==> q in r) && (q in l && q in r ==> l[q] == r[q]) {
      ProgressAt(files, plan, missed, paths, |paths|, q);
    }
  }

  /** The missed files were on the original disk, at planned paths and at no staging path. */
  ghost predicate MissedOf(original: Files, plan: Plan, missed: set<string>) {
    missed <= original.Keys && missed <= plan.Keys && missed !! Staging(plan)
  }

  /** A success has put the whole plan in place exactly when the backup probes missed no file to delete. */
  lemma WholePlanIff(original: Files, plan: Plan, missed: set<string>)
    requires MissedOf(original, plan, missed)
    ensures var clean := original - Staging(plan);
            ApplyPlan(clean, Carried(plan, missed)) == ApplyPlan(clean, plan) <==>
            forall p :: p in missed ==> plan[p].Write?
  {
    var clean := original - Staging(plan);
    if forall p :: p in missed ==> plan[p].Write? {
      assert Carried(plan, missed) == plan;
    } else {
      var p :| p in missed && plan[p].Remove?;
      assert p in ApplyPlan(clean, Carried(plan, missed)) && p !in ApplyPlan(clean, plan);
    }
  }

  /** A file at a staging path survives only if the plan itself rewrites it. */
  ghost predicate StagingUnused(files: Files, plan: Plan) {
    forall p :: p in plan && plan[p].Write? ==> TmpOf(p) in plan || TmpOf(p) !in files
  }

  /** The staging files make no difference exactly when none of them was somebody's file. */
  lemma StagingHarmlessIff(files: Files, plan: Plan)
    ensures ApplyPlan(files - Staging(plan), plan) == ApplyPlan(files, plan) <==> StagingUnused(files, plan)
  {
    var l, r := ApplyPlan(files - Staging(plan), plan), ApplyPlan(files, plan);
    if StagingUnused(files, plan) {
      forall q ensures q in l <==> q in r {}
      assert forall q :: q in l ==> l[q] == r[q];
    } else {
      var p :| p in plan && plan[p].Write? && TmpOf(p) !in plan && TmpOf(p) in files;
      assert TmpOf(p) in Staging(plan);
      assert TmpOf(p) in r && TmpOf(p) !in l;
    }
  }

  // ----- The operation -----

  datatype FileResult = FileResult(path: string, hash: string, deleted: bool)

  datatype ApplyRequest =
    ApplyRequest(changeSetId: string, workspaceId: string, approvalId: string, approvedDiffHash: string)

  datatype ApplyOptions = ApplyOptions(maxBytes: int, failAfter: int)

  datatype ApplyResult =
    ApplyResult(changeSetId: string, workspaceId: string, revision: int, files: seq<FileResult>)

  /** Answers why an approval does not cover this change set and hash, or None. */
  type ApprovalValidator = (string, string, string) -> Option<Code>

  /** Each planned path is listed once, in order, with the hash of what was written. */
  ghost predicate ListsPlan(host: Host, plan: Plan, files: seq<FileResult>) {
    && (forall i, j :: 0 <= i < j < |files| ==> Before(files[i].path, files[j].path))
    && (forall p :: p in plan ==> exists i :: 0 <= i < |files| && files[i].path == p)
    && (forall f :: f in files ==>
          f.path in plan
          && f == match plan[f.path]
                  case Remove => FileResult(f.path, "", true)
                  case Write(content) => FileResult(f.path, host.hash(content), false))
  }

  method ListFiles(host: Host, plan: Plan, paths: seq<string>) returns (files: seq<FileResult>)
    requires PlanPaths(paths, plan)
    ensures ListsPlan(host, plan, files)
  {
    files := [];
    for k := 0 to |paths|
      invariant |files| == k
      invariant forall i :: 0 <= i < k ==> files[i].path == paths[i]
      invariant forall i | 0 <= i < k ::
                  files[i] == match plan[paths[i]]
                              case Remove => FileResult(paths[i], "", true)
                              case Write(content) => FileResult(paths[i], host.hash(content), false)
    {
      match plan[paths[k]] {
        case Remove => files := files + [FileResult(paths[k], "", true)];
        case Write(content) => files := files + [FileResult(paths[k], host.hash(content), false)];
      }
    }
    forall p | p in plan ensures exists i :: 0 <= i < |files| && files[i].path == p {
      assert p in paths;
      var i :| 0 <= i < |paths| && paths[i] == p;
      assert files[i].path == p;
    }
  }

  /** Proposing the stored change set on `before` gives the stored diff hash again. */
  ghost predicate Revalidates(host: Host, before: Workspace, p: Proposal, maxBytes: int) {
    var again := ProposeOf(host, before, p.changeSet, maxBytes);
    again.Ok? && again.value.diffHash == p.diffHash
  }

  function Remapped(code: Code): Code { if code == FileHashMismatch then WorkspaceFileChanged else code }

  /** The forced stop after `n` paths, or a failure there, with everything put back. */
  ghost predicate StoppedAfter(original: Files, files: Files, plan: Plan, n: nat) {
    exists paths :: PlanPaths(paths, plan) && LostFirst(original, files, plan, paths, n)
  }

  /** Some stop, after which the missed files are gone as well. */
  ghost predicate PutBack(original: Files, missed: set<string>, files: Files, plan: Plan) {
    exists n :: StoppedAfter(original - missed, files, plan, n)
  }

  /**
   For a failed apply of `n` paths: the disk is restored exactly when the backup probes missed no
   file and none sat at the staging path of a written one of the `n`. `paths` is the only ascending
   list of the plan's paths.
   */
  lemma FailedApplyRestoresIff(
    original: Files, missed: set<string>, files: Files, plan: Plan, paths: seq<string>, n: nat)
    requires PlanPaths(paths, plan) && n <= |paths| && MissedOf(original, plan, missed)
    requires StoppedAfter(original - missed, files, plan, n)
    ensures files == original <==>
              missed == {} && forall i :: 0 <= i < n && plan[paths[i]].Write? ==> TmpOf(paths[i]) !in original
  {
    var others :| PlanPaths(others, plan) && LostFirst(original - missed, files, plan, others, n);
    PlanPathsUnique(paths, others);
    RestoredIffNothingInTheWay(original, missed, files, plan, paths, n);
  }

  /** What the operation answers when no call to the operating system fails. */
  ghost function CalmError(host: Host, before: Workspace, p: Proposal, opts: ApplyOptions): Option<Code> {
    match ProposeOf(host, before, p.changeSet, opts.maxBytes)
    case Err(code) => Some(Remapped(code))
    case Ok(again) =>
      if again.diffHash != p.diffHash then Some(DiffMismatch)
      else if 0 < opts.failAfter <= |p.planned| then Some(ApplyFailed)
      else None
  }

  /** The change set is accepted again, and the hook stops the apply. */
  ghost predicate ForcedStop(host: Host, before: Workspace, p: Proposal, opts: ApplyOptions) {
    Revalidates(host, before, p, opts.maxBytes) && 0 < opts.failAfter <= |p.planned|
  }

  lemma {:induction false} PathCount(paths: seq<string>, plan: Plan)
    requires PlanPaths(paths, plan)
    ensures |paths| == |plan|
  {
    forall i, j | 0 <= i < j < |paths| ensures paths[i] != paths[j] {
      BeforeIrreflexive(paths[i]);
    }
    DistinctCount(paths);
    assert (set p | p in paths) == plan.Keys;
  }

  lemma {:induction false} DistinctCount(paths: seq<string>)
    requires forall i, j :: 0 <= i < j < |paths| ==> paths[i] != paths[j]
    ensures |set p | p in paths| == |paths|
  {
    if paths != [] {
      DistinctCount(paths[1..]);
      assert (set p | p in paths) == (set p | p in paths[1..]) + {paths[0]};
    }
  }

  /**
   Puts a plan in place: all of it but the deletes of missed files, or back to where the first `n`
   paths had been staged, without the missed files.
   */
  method PutPlan(ws: LiveWorkspace, plan: Plan, failAfter: int) returns (error: Option<Code>, paths: seq<string>)
    modifies ws`files, ws`missed, ws`undoFault, ws`fault
    ensures PlanPaths(paths, plan)
    ensures old(ws.fault) ==> ws.fault
    ensures SameOutside(old(ws.files), ws.files, Region(plan)) && MissedOf(old(ws.files), plan, ws.missed)
    ensures error == None ==> ws.files == ApplyPlan(old(ws.files) - Staging(plan), Carried(plan, ws.missed))
    ensures error.Some? && !ws.undoFault ==> PutBack(old(ws.files), ws.missed, ws.files, plan)
    ensures !ws.fault ==> ws.missed == {} && ws.undoFault == old(ws.undoFault)
    ensures !ws.fault ==> error == if 0 < failAfter <= |plan| then Some(ApplyFailed) else None
    ensures !ws.fault && !ws.undoFault && error.Some? ==> StoppedAfter(old(ws.files), ws.files, plan, failAfter)
  {
    hide UsedUp, ApplyPlan, Progress, Staging, Region, SameOutside, Carried;
    paths := SortedPaths(plan);
    PathCount(paths, plan);
    error := ApplyPaths(ws, plan, paths, failAfter);
    if error == None {
      ProgressIsPlan(old(ws.files), plan, ws.missed, paths);
    } else if !ws.undoFault {
      ghost var n :| LostFirst(old(ws.files) - ws.missed, ws.files, plan, paths, n);
      assert StoppedAfter(old(ws.files) - ws.missed, ws.files, plan, n);
    }
  }

  /**
   The part of the operation that runs under the registry's lock. `seen` is what the revalidation
   saw of the disk, which is the whole disk unless `lookFault`.
   */
  method ApplyProposal(host: Host, ws: LiveWorkspace, p: Proposal, changeSetId: string, opts: ApplyOptions)
    returns (r: Result<ApplyResult>, ghost seen: Files)
    modifies ws
    ensures Sees(seen, old(ws.files)) && (!ws.lookFault ==> seen == old(ws.files))
    ensures SameOutside(old(ws.files), ws.files, Region(p.planned)) && MissedOf(old(ws.files), p.planned, ws.missed)
    ensures r.Err? ==> ws.revision == old(ws.revision)
    ensures r.Err? && !ws.undoFault ==> PutBack(old(ws.files), ws.missed, ws.files, p.planned)
    ensures r.Ok? ==>
              && Revalidates(host, old(ws.View()).(files := seen), p, opts.maxBytes)
              && ws.files == ApplyPlan(old(ws.files) - Staging(p.planned), Carried(p.planned, ws.missed))
    ensures r.Ok? ==>
              && ws.revision == old(ws.revision) + 1
              && r.value == ApplyResult(changeSetId, ws.id, ws.revision, r.value.files)
              && ListsPlan(host, p.planned, r.value.files)
    ensures !Revalidates(host, old(ws.View()).(files := seen), p, opts.maxBytes) ==>
              r.Err? && ws.files == old(ws.files)
    ensures ProposeOf(host, old(ws.View()).(files := seen), p.changeSet, opts.maxBytes).Err? ==>
              r == Err(InternalError)
              || r == Err(Remapped(ProposeOf(host, old(ws.View()).(files := seen), p.changeSet, opts.maxBytes).code))
    ensures !ws.fault ==>
              && ws.missed == {} && !ws.lookFault && !ws.undoFault
              && match CalmError(host, old(ws.View()), p, opts)
                 case None => r.Ok?
                 case Some(code) =>
                   r == Err(code)
                   && StoppedAfter(old(ws.files), ws.files, p.planned,
                                   if ForcedStop(host, old(ws.View()), p, opts) then opts.failAfter else 0)
  {
    hide UsedUp, ApplyPlan, Staging, Region, SameOutside, ProposeOf, Carried, MissedOf, StoppedAfter, PutBack;
    hide ListsPlan;
    ws.missed, ws.lookFault, ws.undoFault, ws.fault := {}, false, false, false;
    seen := ws.files;
    Untouched(ws.files, p.planned);
    var readable := ws.Resolve("");
    if !readable {
      return Err(InternalError), seen;
    }
    var read := ws.Look();
    seen := read;
    var again := Propose(host, Workspace(ws.id, ws.revision, read), p.changeSet, opts.maxBytes);
    if again.Err? {
      return Err(Remapped(again.code)), seen;
    }
    if again.value.diffHash != p.diffHash {
      return Err(DiffMismatch), seen;
    }
    var error, paths := PutPlan(ws, p.planned, opts.failAfter);
    if error.Some? {
      return Err(error.value), seen;
    }
    var files := ListFiles(host, p.planned, paths);
    ws.revision := ws.revision + 1;
    return Ok(ApplyResult(changeSetId, ws.id, ws.revision, files)), seen;
  }

  /** A disk that nothing was done to. */
  lemma Untouched(files: Files, plan: Plan)
    ensures StoppedAfter(files, files, plan, 0) && PutBack(files, {}, files, plan)
    ensures SameOutside(files, files, Region(plan)) && MissedOf(files, plan, {})
  {
    var paths := PathsOfPlan(plan);
    assert files - {} == files;
    assert LostFirst(files, files, plan, paths, 0);
    assert StoppedAfter(files - {}, files, plan, 0);
  }

  lemma PathsOfPlan(plan: Plan) returns (paths: seq<string>)
    ensures PlanPaths(paths, plan)
  {
    var left := plan.Keys;
    paths := [];
    while left != {}
      invariant left <= plan.Keys && Ascending(paths)
      invariant forall p :: p in paths <==> p in plan && p !in left
      decreases left
    {
      var p :| p in left;
      InsertPathAscends(p, paths);
      paths := InsertPath(p, paths);
      left := left - {p};
    }
  }

  class Registry {
    var byId: map<string, LiveWorkspace>

    ghost predicate Valid()
      reads this, byId.Values
    {
      forall id :: id in byId ==> byId[id].id == id
    }
  }

  /** Why a request is refused before the disk is looked at. */
  function Refusal(
    host: Host, registered: set<string>, t: Table, approval: ApprovalValidator, req: ApplyRequest): Option<Code>
  {
    if !host.isChangeSetId(req.changeSetId) then Some(InvalidArgument)
    else if approval(req.approvalId, req.changeSetId, req.approvedDiffHash).Some? then
      approval(req.approvalId, req.changeSetId, req.approvedDiffHash)
    else if !Claimable(t, req.changeSetId) then Some(ClaimError(t, req.changeSetId))
    else if t[req.changeSetId].changeSet.workspaceId != req.workspaceId then Some(InvalidArgument)
    else if req.approvedDiffHash != t[req.changeSetId].diffHash then Some(DiffMismatch)
    else if !host.isWorkspaceId(req.workspaceId) then Some(InvalidArgument)
    else if req.workspaceId !in registered then Some(WorkspaceNotFound)
    else None
  }

  /** What must hold for a request to get as far as the disk. */
  lemma NotRefusedIff(
    host: Host, registered: set<string>, t: Table, approval: ApprovalValidator, req: ApplyRequest)
    ensures Refusal(host, registered, t, approval, req) == None <==>
              && approval(req.approvalId, req.changeSetId, req.approvedDiffHash) == None
              && req.changeSetId in t && !t[req.changeSetId].applied && !t[req.changeSetId].applying
              && t[req.changeSetId].changeSet.workspaceId == req.workspaceId
              && t[req.changeSetId].diffHash == req.approvedDiffHash
              && req.workspaceId in registered
              && host.isChangeSetId(req.changeSetId) && host.isWorkspaceId(req.workspaceId)
  {
  }

  /** Which check answers with which code; an earlier one comes first. */
  lemma RefusalCodes(
    host: Host, registered: set<string>, t: Table, approval: ApprovalValidator, req: ApplyRequest, p: Proposal)
    requires req.changeSetId in t ==> p == t[req.changeSetId]
    ensures var code, objection := Refusal(host, registered, t, approval, req),
                                   approval(req.approvalId, req.changeSetId, req.approvedDiffHash);
            var asked, known := host.isChangeSetId(req.changeSetId) && objection == None, req.changeSetId in t;
            var free := known && !p.applied && !p.applying;
            var mine := free && p.changeSet.workspaceId == req.workspaceId;
            var same := mine && p.diffHash == req.approvedDiffHash;
            && (!host.isChangeSetId(req.changeSetId) ==> code == Some(InvalidArgument))
            && (host.isChangeSetId(req.changeSetId) && objection.Some? ==> code == objection)
            && (asked && !known ==> code == Some(ChangeSetNotFound))
            && (asked && known && !free ==> code == Some(InvalidChangeSet))
            && (asked && free && !mine ==> code == Some(InvalidArgument))
            && (asked && mine && !same ==> code == Some(DiffMismatch))
            && (asked && same && !host.isWorkspaceId(req.workspaceId) ==> code == Some(InvalidArgument))
            && (asked && same && host.isWorkspaceId(req.workspaceId) && req.workspaceId !in registered ==>
                  code == Some(WorkspaceNotFound))
  {
  }

  /** Revalidation refuses a change set whose base revision is not that of the workspace. */
  lemma RevalidatesAtBase(host: Host, now: Workspace, p: Proposal, maxBytes: int)
    requires Revalidates(host, now, p, maxBytes) && p.changeSet.base.At?
    ensures now.revision == p.changeSet.base.revision
  {
    hide NoConflicts, Entries, DiffTextOf, PlanOf;
  }

  /** Releasing a claim gives the table from before it. */
  lemma ReleaseUndoesClaim(t: Table, id: string)
    requires Claimable(t, id)
    ensures AbortIn(ClaimIn(t, id), id) == t
  {
    assert t[id].(applying := true).(applying := false) == t[id];
  }

  method ApplyChanges(
    host: Host, reg: Registry, store: Store, approval: ApprovalValidator, req: ApplyRequest, opts: ApplyOptions)
    returns (r: Result<ApplyResult>, ghost seen: Files)
    requires reg.Valid()
    modifies store, reg.byId.Values
    ensures reg.byId == old(reg.byId) && reg.Valid()
    ensures Refusal(host, old(reg.byId).Keys, old(store.byId), approval, req).Some? ==>
              && r == Err(Refusal(host, old(reg.byId).Keys, old(store.byId), approval, req).value)
              && forall w :: w in reg.byId.Values ==> unchanged(w)
    ensures r.Ok? ==>
              && approval(req.approvalId, req.changeSetId, req.approvedDiffHash) == None
              && host.isChangeSetId(req.changeSetId) && host.isWorkspaceId(req.workspaceId)
              && req.workspaceId in reg.byId && req.changeSetId in old(store.byId)
              && var p := old(store.byId)[req.changeSetId];
                 && !p.applied && !p.applying
                 && p.changeSet.workspaceId == req.workspaceId && p.diffHash == req.approvedDiffHash
                 && (p.changeSet.base.At? ==> old(reg.byId[req.workspaceId].revision) == p.changeSet.base.revision)
    ensures host.isChangeSetId(req.changeSetId)
            && approval(req.approvalId, req.changeSetId, req.approvedDiffHash).Some? ==>
              && r == Err(approval(req.approvalId, req.changeSetId, req.approvedDiffHash).value)
              && store.byId == old(store.byId) && forall w :: w in reg.byId.Values ==> unchanged(w)
    ensures r.Err? ==> store.byId == old(store.byId)
    ensures r.Ok? ==>
              && Refusal(host, old(reg.byId).Keys, old(store.byId), approval, req) == None
              && store.byId == FinishIn(ClaimIn(old(store.byId), req.changeSetId), req.changeSetId)
    ensures forall id :: id in reg.byId && id != req.workspaceId ==> unchanged(reg.byId[id])
    ensures Refusal(host, old(reg.byId).Keys, old(store.byId), approval, req) == None ==>
              var ws, p := reg.byId[req.workspaceId], old(store.byId)[req.changeSetId];
              && (r.Err? ==> ws.revision == old(ws.revision))
              && MissedOf(old(ws.files), p.planned, ws.missed)
              && (r.Err? && !ws.undoFault ==> PutBack(old(ws.files), ws.missed, ws.files, p.planned))
              && (!ws.fault ==> r.Ok? == (CalmError(host, old(ws.View()), p.(applying := true), opts) == None))
              && (!ws.fault && ForcedStop(host, old(ws.View()), p.(applying := true), opts) ==>
                    r == Err(ApplyFailed) && StoppedAfter(old(ws.files), ws.files, p.planned, opts.failAfter))
              && (r.Ok? ==> ws.revision == old(ws.revision) + 1 && ListsPlan(host, p.planned, r.value.files)
                            && r.value.changeSetId == req.changeSetId && r.value.workspaceId == req.workspaceId
                            && r.value.revision == ws.revision)
              && Sees(seen, old(ws.files)) && (!ws.lookFault ==> seen == old(ws.files))
              && (if Revalidates(host, old(ws.View()).(files := seen), p.(applying := true), opts.maxBytes)
                  then r.Ok? ==>
                    ws.files == ApplyPlan(old(ws.files) - Staging(p.planned), Carried(p.planned, ws.missed))
                  else r.Err? && ws.files == old(ws.files))
              && SameOutside(old(ws.files), ws.files, Region(p.planned))
  {
    seen := map[];
    if !host.isChangeSetId(req.changeSetId) {
      return Err(InvalidArgument), seen;
    }
    var objection := approval(req.approvalId, req.changeSetId, req.approvedDiffHash);
    if objection.Some? {
      return Err(objection.value), seen;
    }
    var claim := store.ClaimForApply(req.changeSetId);
    if claim.Err? {
      return Err(claim.code), seen;
    }
    ReleaseUndoesClaim(old(store.byId), req.changeSetId);
    var p := claim.value;
    if p.changeSet.workspaceId != req.workspaceId {
      store.AbortApply(req.changeSetId);
      return Err(InvalidArgument), seen;
    }
    if req.approvedDiffHash != p.diffHash {
      store.AbortApply(req.changeSetId);
      return Err(DiffMismatch), seen;
    }
    if !host.isWorkspaceId(req.workspaceId) {
      store.AbortApply(req.changeSetId);
      return Err(InvalidArgument), seen;
    }
    if req.workspaceId !in reg.byId {
      store.AbortApply(req.changeSetId);
      return Err(WorkspaceNotFound), seen;
    }
    var ws := reg.byId[req.workspaceId];
    r, seen := ApplyProposal(host, ws, p, req.changeSetId, opts);
    if r.Err? {
      store.AbortApply(req.changeSetId);
      return r, seen;
    }
    if p.changeSet.base.At? {
      RevalidatesAtBase(host, old(ws.View()).(files := seen), p, opts.maxBytes);
    }
    var error := store.FinishApply(req.changeSetId);
    if error.Some? {
      assert false;  // with nobody else at the store, a claimed proposal can always be finished
    }
  }
}
