/**
 Applying a stored proposal (`local-agent/internal/workspace/apply.go`).

 Any operating-system operation may fail at any time. The files that a backup probe wrongly
 reported as missing are remembered in `missed`, an incomplete look at the disk in `lookFault`, a
 roll-back or clean-up operation that fails in `undoFault`, and any failure at all in `fault`; the
 guarantees below say what they tolerate.
 */
module DiskApply {
  import opened Wrappers
  import opened Changes

  const TMP_SUFFIX := ".oncode-tmp"

  function TmpOf(p: string): string { p + TMP_SUFFIX }

  lemma TmpAfter(p: string)
    ensures Before(p, TmpOf(p)) && TmpOf(p) != p
  {
    BeforeExtension(p, TMP_SUFFIX);
    BeforeIrreflexive(p);
    assert |TmpOf(p)| > |p|;
  }

  // ----- The workspace on disk -----

  datatype Removal = Removed | NotExist | Failed

  /** The two disks agree on every path outside `region`. */
  ghost predicate SameOutside(files: Files, others: Files, region: set<string>) {
    && (forall p :: p in files && p !in region ==> p in others && others[p] == files[p])
    && (forall p :: p in others && p !in region ==> p in files)
  }

  /** What a look at the disk may show: some files may be overlooked. */
  ghost predicate Sees(seen: Files, files: Files) { forall p :: p in seen ==> p in files && seen[p] == files[p] }

  class LiveWorkspace {
    const id: string
    var revision: int
    var files: Files
    ghost var missed: set<string>
    ghost var lookFault: bool
    ghost var undoFault: bool
    ghost var fault: bool

    constructor (id: string, files: Files)
      ensures this.id == id && revision == 0 && this.files == files
      ensures missed == {} && !lookFault && !undoFault && !fault
    {
      this.id := id;
      revision := 0;
      this.files := files;
      missed := {};
      lookFault := false;
      undoFault := false;
      fault := false;
    }

    function View(): Workspace
      reads this
    {
      Workspace(id, revision, files)
    }

    /** What a round of probing and reading sees: a failing probe hides its file. */
    method Look() returns (seen: Files)
      modifies this`lookFault, this`fault
      ensures Sees(seen, files)
      ensures lookFault == (old(lookFault) || seen != files)
      ensures fault == (old(fault) || seen != files)
    {
      seen := files;
      var hidden: set<string> := *;
      if * {
        seen := files - hidden;
      }
      lookFault := lookFault || seen != files;
      fault := fault || seen != files;
    }

    /** Resolving a path, or taking hold of the workspace, can fail like any other call. */
    method Resolve(p: string) returns (ok: bool)
      modifies this`fault
      ensures fault == (old(fault) || !ok)
    {
      ok := *;
      fault := fault || !ok;
    }

    method Lstat(p: string) returns (found: bool)
      modifies this`missed, this`fault
      ensures found ==> p in files
      ensures missed == old(missed) + if p in files && !found then {p} else {}
      ensures fault == (old(fault) || (p in files && !found))
    {
      found := p in files;
      if * {
        found := false;
      }
      missed := missed + if p in files && !found then {p} else {};
      fault := fault || (p in files && !found);
    }

    method ReadFile(p: string) returns (data: Option<string>)
      modifies this`fault
      ensures data.Some? ==> p in files && data.value == files[p]
      ensures fault == (old(fault) || (p in files && data == None))
    {
      data := None;
      if p in files {
        if * {
          data := Some(files[p]);
        }
      }
      fault := fault || (p in files && data == None);
    }

    method MkdirAll(p: string) returns (ok: bool)
      modifies this`fault
      ensures fault == (old(fault) || !ok)
    {
      ok := *;
      fault := fault || !ok;
    }

    /** A failed write may leave any text behind. */
    method WriteFile(p: string, data: string) returns (ok: bool)
      modifies this`files, this`fault
      ensures SameOutside(old(files), files, {p})
      ensures ok ==> files == old(files)[p := data]
      ensures fault == (old(fault) || !ok)
    {
      ok := *;
      fault := fault || !ok;
      if ok {
        files := files[p := data];
      } else {
        var partial: string := *;
        if * {
          files := files[p := partial];
        }
      }
    }

    method Remove(p: string) returns (r: Removal)
      modifies this`files, this`fault
      ensures fault == (old(fault) || r == Failed)
      ensures r == Removed ==> p in old(files) && files == old(files) - {p}
      ensures r == NotExist ==> p !in old(files)
      ensures r != Removed ==> files == old(files)
    {
      if p !in files {
        return NotExist;
      }
      if * {
        fault := true;
        return Failed;
      }
      files := files - {p};
      return Removed;
    }

    method Rename(source: string, target: string) returns (ok: bool)
      modifies this`files, this`fault
      ensures fault == (old(fault) || (source in old(files) && !ok))
      ensures ok ==> source in old(files) && files == (old(files) - {source})[target := old(files)[source]]
      ensures !ok ==> files == old(files)
    {
      if source !in files {
        return false;
      }
      if * {
        fault := true;
        return false;
      }
      files := (files - {source})[target := files[source]];
      return true;
    }
  }

  // ----- Backups and roll-back -----

  datatype Backup = Backup(path: string, existed: bool, data: string)

  function PathsOf(backups: seq<Backup>): set<string> { set b | b in backups :: b.path }

  function RestoreOne(files: Files, b: Backup): Files {
    if b.existed then files[b.path := b.data] else files - {b.path}
  }

  /** Restores the backups from the last to the first. */
  function Restored(files: Files, backups: seq<Backup>): Files
    decreases |backups|
  {
    if backups == [] then files
    else Restored(RestoreOne(files, backups[|backups| - 1]), backups[..|backups| - 1])
  }

  /** The backups are those of `original`, and only backed-up paths and `loose` differ from it. */
  ghost predicate Undoable(original: Files, files: Files, backups: seq<Backup>, loose: set<string>) {
    && (forall b :: b in backups ==> (b.existed <==> b.path in original) && (b.existed ==> b.data == original[b.path]))
    && SameOutside(original, files, PathsOf(backups) + loose)
  }

  lemma PathsOfSnoc(backups: seq<Backup>, b: Backup)
    ensures PathsOf(backups + [b]) == PathsOf(backups) + {b.path}
  {
    forall p ensures p in PathsOf(backups + [b]) <==> p in PathsOf(backups) || p == b.path {
      assert forall x :: x in backups + [b] <==> x in backups || x == b;
      assert b in backups + [b];
    }
  }

  lemma {:induction false} RestoredIsOriginal(original: Files, files: Files, backups: seq<Backup>, loose: set<string>)
    requires Undoable(original, files, backups, loose)
    ensures SameOutside(original, Restored(files, backups), loose)
    decreases |backups|
  {
    if backups == [] {
      assert PathsOf(backups) + loose == loose;
    } else {
      var n := |backups| - 1;
      var b := backups[n];
      assert backups == backups[..n] + [b] && b in backups;
      PathsOfSnoc(backups[..n], b);
      assert forall x :: x in backups[..n] ==> x in backups;
      RestoredIsOriginal(original, RestoreOne(files, b), backups[..n], loose);
    }
  }

  ghost predicate DistinctBackups(backups: seq<Backup>) {
    forall i, j :: 0 <= i < j < |backups| ==> backups[i].path != backups[j].path
  }

  /** The backup tells what `files` holds at its path. */
  predicate IsTrue(b: Backup, files: Files) {
    (b.existed <==> b.path in files) && (b.existed ==> b.data == files[b.path])
  }

  /** Restoring leaves at every path what its backup says, and other paths alone. */
  lemma {:induction false} RestoredAt(files: Files, backups: seq<Backup>, b: Backup)
    requires DistinctBackups(backups) && b in backups
    ensures IsTrue(b, Restored(files, backups))
    decreases |backups|
  {
    var n := |backups| - 1;
    var front, last := backups[..n], backups[n];
    assert backups == front + [last];
    if b == last {
      RestoredElsewhere(RestoreOne(files, last), front, b.path);
    } else {
      assert forall i, j :: 0 <= i < j < n ==> front[i] == backups[i] && front[j] == backups[j];
      RestoredAt(RestoreOne(files, last), front, b);
    }
  }

  lemma {:induction false} RestoredElsewhere(files: Files, backups: seq<Backup>, p: string)
    requires forall i :: 0 <= i < |backups| ==> backups[i].path != p
    ensures p in Restored(files, backups) <==> p in files
    ensures p in files ==> Restored(files, backups)[p] == files[p]
    decreases |backups|
  {
    if backups != [] {
      var n := |backups| - 1;
      RestoredElsewhere(RestoreOne(files, backups[n]), backups[..n], p);
    }
  }

  /**
   A roll-back restores the original disk exactly when every backup told the truth about it, so
   a probe that wrongly reports a file as missing is enough to lose the file.
   */
  lemma RestoredIff(original: Files, files: Files, backups: seq<Backup>)
    requires DistinctBackups(backups) && SameOutside(original, files, PathsOf(backups))
    ensures Restored(files, backups) == original <==> forall b :: b in backups ==> IsTrue(b, original)
  {
    if Restored(files, backups) == original {
      forall b | b in backups ensures IsTrue(b, original) {
        RestoredAt(files, backups, b);
      }
    } else if forall b :: b in backups ==> IsTrue(b, original) {
      assert PathsOf(backups) + {} == PathsOf(backups);
      RestoredExactly(original, files, backups);
      assert false;
    }
  }

  /** Failures are remembered, and without any the undo flag stays as it was. */
  ghost predicate Calm(wasFault: bool, wasUndoFault: bool, ws: LiveWorkspace)
    reads ws
  {
    (wasFault ==> ws.fault) && (!ws.fault ==> ws.undoFault == wasUndoFault)
  }

  method Rollback(ws: LiveWorkspace, backups: seq<Backup>)
    modifies ws`files, ws`undoFault, ws`fault
    ensures Calm(old(ws.fault), old(ws.undoFault), ws)
    ensures old(ws.undoFault) ==> ws.undoFault
    ensures !ws.undoFault ==> ws.files == Restored(old(ws.files), backups)
    ensures SameOutside(old(ws.files), ws.files, PathsOf(backups))
  {
    var i := |backups| - 1;
    ghost var entry := ws.files;
    assert backups[..i + 1] == backups;
    while i >= 0
      invariant -1 <= i < |backups|
      invariant old(ws.undoFault) ==> ws.undoFault
      invariant Calm(old(ws.fault), old(ws.undoFault), ws)
      invariant !ws.undoFault ==> Restored(ws.files, backups[..i + 1]) == Restored(entry, backups)
      invariant SameOutside(entry, ws.files, PathsOf(backups))
    {
      var b := backups[i];
      assert b in backups;
      assert backups[..i + 1][..i] == backups[..i];
      if b.existed {
        var made := ws.MkdirAll(b.path);
        var ok := ws.WriteFile(b.path, b.data);
        if !ok {
          ws.undoFault := true;
        }
      } else {
        var r := ws.Remove(b.path);
        if r == Failed {
          ws.undoFault := true;
        }
        if r == NotExist {
          assert ws.files - {b.path} == ws.files;
        }
      }
      i := i - 1;
    }
  }

  // ----- One planned path -----

  function StagingOf(p: string, planned: Planned): set<string> {
    if planned.Write? then {TmpOf(p)} else {}
  }

  /** The disk once `p` has its planned state; staging uses up the temporary file. */
  function Touch(files: Files, p: string, planned: Planned): Files {
    match planned
    case Remove => files - {p}
    case Write(content) => (files - {TmpOf(p)})[p := content]
  }

  /** A file that the probe missed is not deleted. */
  predicate Skips(plan: Plan, missed: set<string>, p: string)
    requires p in plan
  {
    plan[p].Remove? && p in missed
  }

  lemma MissingStays(files: Files, p: string)
    requires p !in files
    ensures Touch(files, p, Remove) == files
  {
  }

  /** The disk once the paths of `paths` were handled in this order and the probes missed `missed`. */
  function Progress(files: Files, plan: Plan, missed: set<string>, paths: seq<string>): Files
    requires forall p :: p in paths ==> p in plan
  {
    if paths == [] then files
    else
      var n := |paths| - 1;
      var before := Progress(files, plan, missed, paths[..n]);
      if Skips(plan, missed, paths[n]) then before else Touch(before, paths[n], plan[paths[n]])
  }

  /** Moves `tmp` onto `dest`, removing `dest` first. */
  method ReplaceFile(ws: LiveWorkspace, tmp: string, dest: string) returns (ok: bool)
    requires tmp != dest
    modifies ws`files, ws`fault
    ensures (old(ws.fault) ==> ws.fault) && (ok ==> ws.fault == old(ws.fault))
    ensures !ok && tmp in old(ws.files) ==> ws.fault
    ensures ok ==> tmp in old(ws.files) && ws.files == (old(ws.files) - {tmp})[dest := old(ws.files)[tmp]]
    ensures !ok ==> SameOutside(old(ws.files), ws.files, {dest})
  {
    var r := ws.Remove(dest);
    if r == Failed {
      return false;
    }
    ok := ws.Rename(tmp, dest);
    if ok {
      assert ws.files == (old(ws.files) - {tmp})[dest := old(ws.files)[tmp]];
    }
  }

  lemma SameEverywhere(files: Files, others: Files)
    requires SameOutside(files, others, {})
    ensures files == others
  {
  }

  lemma RestoredWithoutTmp(base: Files, files: Files, backups: seq<Backup>, tmp: string)
    requires Undoable(base, files, backups, {tmp})
    ensures Restored(files, backups) - {tmp} == base - {tmp}
  {
    RestoredIsOriginal(base, files, backups, {tmp});
    SameEverywhere(Restored(files, backups) - {tmp}, base - {tmp});
  }

  lemma RestoredExactly(original: Files, files: Files, backups: seq<Backup>)
    requires Undoable(original, files, backups, {})
    ensures Restored(files, backups) == original
  {
    RestoredIsOriginal(original, files, backups, {});
    SameEverywhere(original, Restored(files, backups));
  }

  method RollbackTo(ws: LiveWorkspace, backups: seq<Backup>, ghost original: Files)
    modifies ws`files, ws`undoFault, ws`fault
    ensures Calm(old(ws.fault), old(ws.undoFault), ws)
    ensures old(ws.undoFault) ==> ws.undoFault
    ensures !ws.undoFault && Undoable(original, old(ws.files), backups, {}) ==> ws.files == original
    ensures SameOutside(old(ws.files), ws.files, PathsOf(backups))
  {
    Rollback(ws, backups);
    if Undoable(original, old(ws.files), backups, {}) {
      RestoredExactly(original, old(ws.files), backups);
    }
  }

  /** Rolls back, then drops the staging file. */
  method RollbackThenClean(ws: LiveWorkspace, backups: seq<Backup>, tmp: string, ghost base: Files)
    modifies ws`files, ws`undoFault, ws`fault
    ensures Calm(old(ws.fault), old(ws.undoFault), ws)
    ensures old(ws.undoFault) ==> ws.undoFault
    ensures !ws.undoFault && Undoable(base, old(ws.files), backups, {tmp}) ==> ws.files == base - {tmp}
    ensures SameOutside(old(ws.files), ws.files, PathsOf(backups) + {tmp})
  {
    Rollback(ws, backups);
    ghost var restored := ws.files;
    var r := ws.Remove(tmp);
    if r == Failed {
      ws.undoFault := true;
    }
    if Undoable(base, old(ws.files), backups, {tmp}) {
      RestoredWithoutTmp(base, old(ws.files), backups, tmp);
      assert tmp !in restored ==> restored - {tmp} == restored;
    }
  }

  /** Drops the staging file, then rolls back. */
  method CleanThenRollback(ws: LiveWorkspace, backups: seq<Backup>, tmp: string, ghost base: Files)
    requires tmp !in PathsOf(backups)
    modifies ws`files, ws`undoFault, ws`fault
    ensures Calm(old(ws.fault), old(ws.undoFault), ws)
    ensures old(ws.undoFault) ==> ws.undoFault
    ensures !ws.undoFault && Undoable(base, old(ws.files), backups, {tmp}) ==> ws.files == base - {tmp}
    ensures SameOutside(old(ws.files), ws.files, PathsOf(backups) + {tmp})
  {
    var r := ws.Remove(tmp);
    if r == Failed {
      ws.undoFault := true;
    }
    ghost var cleaned := ws.files;
    Rollback(ws, backups);
    if !ws.undoFault && Undoable(base, old(ws.files), backups, {tmp}) {
      assert forall b :: b in backups ==> b.path in PathsOf(backups);
      assert SameOutside(base - {tmp}, cleaned, PathsOf(backups) + {});
      RestoredExactly(base - {tmp}, cleaned, backups);
    }
  }

  /** Stages a text and moves it into place; on failure everything done so far is rolled back. */
  method StageAndReplace(ws: LiveWorkspace, p: string, content: string, backups: seq<Backup>, ghost base: Files)
    returns (ok: bool)
    requires p in PathsOf(backups) && TmpOf(p) !in PathsOf(backups)
    modifies ws`files, ws`undoFault, ws`fault
    ensures Calm(old(ws.fault), old(ws.undoFault), ws)
    ensures old(ws.undoFault) ==> ws.undoFault
    ensures !ok ==> ws.fault
    ensures ok ==> ws.undoFault == old(ws.undoFault) && ws.files == (old(ws.files) - {TmpOf(p)})[p := content]
    ensures !ok && !ws.undoFault && Undoable(base, old(ws.files), backups, {}) ==>
              ws.files == base || ws.files == base - {TmpOf(p)}
    ensures SameOutside(old(ws.files), ws.files, PathsOf(backups) + {TmpOf(p)})
  {
    ghost var entry := ws.files;
    TmpAfter(p);
    var made := ws.MkdirAll(p);
    if !made {
      RollbackTo(ws, backups, base);
      return false;
    }
    var tmp := TmpOf(p);
    var wrote := ws.WriteFile(tmp, content);
    if !wrote {
      assert SameOutside(entry, ws.files, PathsOf(backups) + {tmp});
      RollbackThenClean(ws, backups, tmp, base);
      return false;
    }
    var moved := ReplaceFile(ws, tmp, p);
    if !moved {
      assert SameOutside(entry, ws.files, PathsOf(backups) + {tmp});
      CleanThenRollback(ws, backups, tmp, base);
      return false;
    }
    assert ws.files == (entry - {tmp})[p := content];
    return true;
  }

  /** Puts one path into its planned state; on failure everything done so far is rolled back. */
  method PutInPlace(ws: LiveWorkspace, p: string, planned: Planned, existed: bool, backups: seq<Backup>,
    ghost base: Files)
    returns (ok: bool)
    requires p in PathsOf(backups) && TmpOf(p) !in PathsOf(backups)
    requires existed ==> p in ws.files
    modifies ws`files, ws`undoFault, ws`fault
    ensures Calm(old(ws.fault), old(ws.undoFault), ws)
    ensures old(ws.undoFault) ==> ws.undoFault
    ensures !ok ==> ws.fault
    ensures ok ==> ws.undoFault == old(ws.undoFault)
    ensures ok ==> ws.files == if planned.Remove? && !existed then old(ws.files) else Touch(old(ws.files), p, planned)
    ensures !ok && !ws.undoFault && Undoable(base, old(ws.files), backups, {}) ==>
              ws.files == base || ws.files == base - StagingOf(p, planned)
    ensures SameOutside(old(ws.files), ws.files, PathsOf(backups) + StagingOf(p, planned))
  {
    hide Undoable;
    ghost var entry := ws.files;
    match planned {
      case Remove =>
        if existed {
          var r := ws.Remove(p);
          if r != Removed {
            RollbackTo(ws, backups, base);
            return false;
          }
        }
      case Write(content) =>
        ok := StageAndReplace(ws, p, content, backups, base);
        return;
    }
    return true;
  }

  // ----- All planned paths -----

  /** Where the plan stages what it writes. */
  function Staging(plan: Plan): set<string> { set p | p in plan && plan[p].Write? :: TmpOf(p) }

  /** No staging file exists. */
  ghost predicate TmpClear(files: Files, plan: Plan) { files.Keys !! Staging(plan) }

  ghost predicate Ascending(paths: seq<string>) {
    forall i, j :: 0 <= i < j < |paths| ==> Before(paths[i], paths[j])
  }

  /** Backups were taken of exactly the first `k` paths. */
  ghost predicate BackupsOf(backups: seq<Backup>, paths: seq<string>, k: nat) {
    k <= |paths| && |backups| == k && forall i :: 0 <= i < k ==> backups[i].path == paths[i]
  }

  lemma BackedUpIff(backups: seq<Backup>, paths: seq<string>, k: nat, q: string)
    requires BackupsOf(backups, paths, k)
    ensures q in PathsOf(backups) <==> q in paths[..k]
  {
    if q in paths[..k] {
      var i :| 0 <= i < k && paths[i] == q;
      assert backups[i] in backups;
    }
  }

  lemma NextIsFresh(backups: seq<Backup>, paths: seq<string>, k: nat)
    requires Ascending(paths) && k < |paths| && BackupsOf(backups, paths, k)
    ensures paths[k] !in PathsOf(backups) && TmpOf(paths[k]) !in PathsOf(backups)
    ensures TmpOf(paths[k]) != paths[k]
  {
    TmpAfter(paths[k]);
    BackedUpIff(backups, paths, k, paths[k]);
    BackedUpIff(backups, paths, k, TmpOf(paths[k]));
    forall i | 0 <= i < k ensures paths[i] != paths[k] && paths[i] != TmpOf(paths[k]) {
      BeforeIrreflexive(paths[k]);
      BeforeIrreflexive(paths[i]);
      BeforeTransitive(paths[i], paths[k], TmpOf(paths[k]));
    }
  }

  /** A backup of the next path keeps the disk undoable, but a file that it misses will be deleted. */
  lemma BackupKeepsUndoable(base: Files, files: Files, backups: seq<Backup>, b: Backup, hidden: set<string>)
    requires Undoable(base, files, backups, {}) && b.path !in PathsOf(backups)
    requires b.existed ==> b.path in files && b.data == files[b.path]
    requires hidden == if b.path in files && !b.existed then {b.path} else {}
    ensures hidden <= base.Keys && Undoable(base - hidden, files, backups + [b], {})
  {
    PathsOfSnoc(backups, b);
    assert forall x :: x in backups ==> x.path in PathsOf(backups);
  }

  /** Putting a path in place loses whatever file was at its staging path. */
  lemma TouchKeepsUndoable(base: Files, files: Files, backups: seq<Backup>, p: string, planned: Planned)
    requires Undoable(base, files, backups, {}) && p in PathsOf(backups) && TmpOf(p) !in PathsOf(backups)
    ensures Undoable(base - StagingOf(p, planned), Touch(files, p, planned), backups, {})
  {
    TmpAfter(p);
    assert forall b :: b in backups ==> b.path in PathsOf(backups);
  }

  lemma ProgressSnoc(files: Files, plan: Plan, missed: set<string>, paths: seq<string>, k: nat)
    requires forall p :: p in paths ==> p in plan
    requires k < |paths|
    ensures Progress(files, plan, missed, paths[..k + 1]) ==
            var before := Progress(files, plan, missed, paths[..k]);
            if Skips(plan, missed, paths[k]) then before else Touch(before, paths[k], plan[paths[k]])
  {
    assert paths[..k + 1][..k] == paths[..k];
  }

  /** A probe of a later path makes no difference to the paths handled before. */
  lemma {:induction false} ProgressIgnores(
    files: Files, plan: Plan, missed: set<string>, more: set<string>, paths: seq<string>)
    requires forall p :: p in paths ==> p in plan && p !in more
    ensures Progress(files, plan, missed + more, paths) == Progress(files, plan, missed, paths)
  {
    if paths != [] {
      ProgressIgnores(files, plan, missed, more, paths[..|paths| - 1]);
    }
  }

  ghost predicate PlanPaths(paths: seq<string>, plan: Plan) {
    Ascending(paths) && forall p :: p in paths <==> p in plan
  }

  /** The planned paths and the staging files. */
  function Region(plan: Plan): set<string> { plan.Keys + Staging(plan) }

  /** The staging files used up by the first `k` paths. */
  function UsedUp(plan: Plan, paths: seq<string>, k: nat): set<string>
    requires k <= |paths| && forall p :: p in paths ==> p in plan
  {
    if k == 0 then {} else UsedUp(plan, paths, k - 1) + StagingOf(paths[k - 1], plan[paths[k - 1]])
  }

  lemma UsedUpIsStaging(plan: Plan, paths: seq<string>, k: nat)
    requires k <= |paths| && forall p :: p in paths ==> p in plan
    ensures UsedUp(plan, paths, k) <= Staging(plan)
  {
  }

  /** The missed files were on the original disk, at handled paths and at no staging path. */
  ghost predicate MissedFiles(original: Files, plan: Plan, missed: set<string>, paths: seq<string>) {
    missed <= original.Keys && missed !! Staging(plan) && forall p :: p in missed ==> p in paths
  }

  /** The first `k` paths are in place and backed up; nothing else has been touched. */
  ghost predicate Midway(
    original: Files, ws: LiveWorkspace, plan: Plan, paths: seq<string>, k: nat, backups: seq<Backup>)
    requires PlanPaths(paths, plan)
    reads ws
  {
    && BackupsOf(backups, paths, k)
    && SameOutside(original, ws.files, Region(plan))
    && MissedFiles(original, plan, ws.missed, paths[..k])
    && ws.files == Progress(original, plan, ws.missed, paths[..k])
    && Undoable(original - ws.missed - UsedUp(plan, paths, k), ws.files, backups, {})
  }

  /** Exactly the files at the staging paths of the first `k` planned paths are gone. */
  ghost predicate LostFirst(original: Files, files: Files, plan: Plan, paths: seq<string>, k: nat)
    requires PlanPaths(paths, plan)
  {
    k <= |paths| && files == original - UsedUp(plan, paths, k)
  }

  /** What a failure leaves behind: the original disk without the missed files and what staging used up. */
  ghost predicate RolledBack(original: Files, ws: LiveWorkspace, plan: Plan, paths: seq<string>)
    requires PlanPaths(paths, plan)
    reads ws
  {
    && SameOutside(original, ws.files, Region(plan))
    && MissedFiles(original, plan, ws.missed, paths)
    && (!ws.undoFault ==> exists k :: LostFirst(original - ws.missed, ws.files, plan, paths, k))
  }

  lemma BackupsInRegion(backups: seq<Backup>, plan: Plan, paths: seq<string>, k: nat)
    requires PlanPaths(paths, plan) && BackupsOf(backups, paths, k)
    ensures PathsOf(backups) <= Region(plan)
  {
    forall q | q in PathsOf(backups) ensures q in Region(plan) {
      BackedUpIff(backups, paths, k, q);
    }
  }

  lemma BackupsSnoc(backups: seq<Backup>, paths: seq<string>, k: nat, b: Backup)
    requires BackupsOf(backups, paths, k) && k < |paths| && b.path == paths[k]
    ensures BackupsOf(backups + [b], paths, k + 1)
    ensures PathsOf(backups + [b]) == PathsOf(backups) + {paths[k]}
  {
    PathsOfSnoc(backups, b);
  }

  method GiveUp(
    ws: LiveWorkspace, plan: Plan, paths: seq<string>, k: nat, backups: seq<Backup>, ghost original: Files)
    requires PlanPaths(paths, plan) && Midway(original, ws, plan, paths, k, backups)
    modifies ws`files, ws`undoFault, ws`fault
    ensures Calm(old(ws.fault), old(ws.undoFault), ws)
    ensures old(ws.undoFault) ==> ws.undoFault
    ensures RolledBack(original, ws, plan, paths)
    ensures !ws.undoFault ==> LostFirst(original - ws.missed, ws.files, plan, paths, k)
  {
    BackupsInRegion(backups, plan, paths, k);
    UsedUpIsStaging(plan, paths, k);
    RollbackTo(ws, backups, original - ws.missed - UsedUp(plan, paths, k));
    assert !ws.undoFault ==> LostFirst(original - ws.missed, ws.files, plan, paths, k);
  }

  /** Backs one path up; None when its text cannot be read. */
  method BackUp(ws: LiveWorkspace, p: string) returns (b: Option<Backup>)
    modifies ws`missed, ws`fault
    ensures (old(ws.fault) || b == None ==> ws.fault) && (!ws.fault ==> ws.missed == old(ws.missed))
    ensures b == None ==> ws.missed == old(ws.missed)
    ensures b.Some? ==> b.value.path == p && (b.value.existed ==> p in ws.files && b.value.data == ws.files[p])
    ensures b.Some? ==> ws.missed == old(ws.missed) + if p in ws.files && !b.value.existed then {p} else {}
  {
    var found := ws.Lstat(p);
    if !found {
      return Some(Backup(p, false, ""));
    }
    var data := ws.ReadFile(p);
    if data == None {
      return None;
    }
    return Some(Backup(p, true, data.value));
  }

  /** Halfway through a round: path `k` is backed up as well, and not yet touched. */
  ghost predicate BackedUp(
    original: Files, ws: LiveWorkspace, plan: Plan, paths: seq<string>, k: nat, backups: seq<Backup>)
    requires PlanPaths(paths, plan) && k < |paths|
    reads ws
  {
    && BackupsOf(backups, paths, k + 1)
    && SameOutside(original, ws.files, Region(plan))
    && MissedFiles(original, plan, ws.missed, paths[..k + 1])
    && ws.files == Progress(original, plan, ws.missed, paths[..k])
    && Undoable(original - ws.missed - UsedUp(plan, paths, k), ws.files, backups, {})
    && (backups[k].existed ==> paths[k] in ws.files)
    && (paths[k] in ws.missed <==> paths[k] in ws.files && !backups[k].existed)
  }

  /** What is left of the original disk once path `k` is in place or given up. */
  lemma OneMoreUsedUp(original: Files, plan: Plan, paths: seq<string>, k: nat)
    requires PlanPaths(paths, plan) && k < |paths|
    ensures (original - UsedUp(plan, paths, k)) - StagingOf(paths[k], plan[paths[k]]) ==
            original - UsedUp(plan, paths, k + 1)
    ensures UsedUp(plan, paths, k) <= Staging(plan) && UsedUp(plan, paths, k + 1) <= Staging(plan)
    ensures StagingOf(paths[k], plan[paths[k]]) <= Region(plan)
  {
    UsedUpIsStaging(plan, paths, k);
    UsedUpIsStaging(plan, paths, k + 1);
  }

  /** Second half of a round: puts the path in place. */
  method PlaceOne(ws: LiveWorkspace, plan: Plan, paths: seq<string>, k: nat, backups: seq<Backup>,
    ghost original: Files)
    returns (ok: bool)
    requires PlanPaths(paths, plan) && k < |paths| && BackedUp(original, ws, plan, paths, k, backups)
    modifies ws`files, ws`undoFault, ws`fault
    ensures Calm(old(ws.fault), old(ws.undoFault), ws)
    ensures old(ws.undoFault) ==> ws.undoFault
    ensures !ok ==> ws.fault
    ensures ok ==> ws.undoFault == old(ws.undoFault) && Midway(original, ws, plan, paths, k + 1, backups)
    ensures !ok ==> RolledBack(original, ws, plan, paths)
  {
    hide Progress, Undoable, UsedUp, Touch, Staging, Region;
    var p := paths[k];
    ghost var entry, base := ws.files, original - ws.missed - UsedUp(plan, paths, k);
    BackupsInRegion(backups, plan, paths, k + 1);
    OneMoreUsedUp(original - ws.missed, plan, paths, k);
    TmpIsFresh(backups, paths, k);
    TouchKeepsUndoable(base, entry, backups, p, plan[p]);
    ok := PutInPlace(ws, p, plan[p], backups[k].existed, backups, base);
    if ok {
      ProgressSnoc(original, plan, ws.missed, paths, k);
      assert plan[p].Remove? ==> base - StagingOf(p, plan[p]) == base;
      if p !in entry {
        MissingStays(entry, p);
      }
    } else if !ws.undoFault {
      assert LostFirst(original - ws.missed, ws.files, plan, paths, k)
          || LostFirst(original - ws.missed, ws.files, plan, paths, k + 1);
    }
  }

  lemma TmpIsFresh(backups: seq<Backup>, paths: seq<string>, k: nat)
    requires Ascending(paths) && k < |paths| && BackupsOf(backups, paths, k + 1)
    ensures paths[k] in PathsOf(backups) && TmpOf(paths[k]) !in PathsOf(backups)
  {
    assert backups[..k + 1] == backups;
    NextIsFresh(backups[..k], paths, k);
    assert backups == backups[..k] + [backups[k]];
    PathsOfSnoc(backups[..k], backups[k]);
  }

  /** A file that is still there when its path is probed sits at no staging path. */
  lemma NotStaged(plan: Plan, paths: seq<string>, k: nat)
    requires PlanPaths(paths, plan) && k < |paths| && paths[k] !in UsedUp(plan, paths, k)
    ensures paths[k] !in Staging(plan)
  {
    forall i | 0 <= i < |paths| && plan[paths[i]].Write? ensures paths[k] != TmpOf(paths[i]) {
      UsedUpIff(plan, paths, k, TmpOf(paths[i]));
      TmpAfter(paths[i]);
      BeforeIrreflexive(paths[i]);
      if k < i {
        BeforeTransitive(paths[k], paths[i], TmpOf(paths[i]));
        BeforeIrreflexive(paths[k]);
      }
    }
  }

  /** What the backup of path `k` adds to the missed files. */
  lemma MissesOneMore(
    original: Files, files: Files, plan: Plan, paths: seq<string>, k: nat, backups: seq<Backup>, b: Backup,
    missed: set<string>, hidden: set<string>)
    requires PlanPaths(paths, plan) && k < |paths| && b.path == paths[k]
    requires BackupsOf(backups, paths, k) && MissedFiles(original, plan, missed, paths[..k])
    requires files == Progress(original, plan, missed, paths[..k])
    requires Undoable(original - missed - UsedUp(plan, paths, k), files, backups, {})
    requires b.existed ==> b.path in files && b.data == files[b.path]
    requires hidden == if b.path in files && !b.existed then {b.path} else {}
    ensures MissedFiles(original, plan, missed + hidden, paths[..k + 1])
    ensures files == Progress(original, plan, missed + hidden, paths[..k])
    ensures Undoable(original - (missed + hidden) - UsedUp(plan, paths, k), files, backups + [b], {})
    ensures paths[k] in missed + hidden <==> paths[k] in hidden
  {
    hide Progress, Undoable, UsedUp, Staging;
    var base := original - missed - UsedUp(plan, paths, k);
    NextIsFresh(backups, paths, k);
    BackupKeepsUndoable(base, files, backups, b, hidden);
    assert base - hidden == original - (missed + hidden) - UsedUp(plan, paths, k);
    assert paths[k] !in paths[..k] by {
      BackedUpIff(backups, paths, k, paths[k]);
    }
    ProgressIgnores(original, plan, missed, hidden, paths[..k]);
    if hidden != {} {
      assert paths[k] in base;
      NotStaged(plan, paths, k);
    }
    assert paths[..k + 1] == paths[..k] + [paths[k]];
  }

  /** One round of the loop: backs path `k` up and puts it in place. */
  method ApplyOnePath(
    ws: LiveWorkspace, plan: Plan, paths: seq<string>, k: nat, backups: seq<Backup>, ghost original: Files)
    returns (error: Option<Code>, next: seq<Backup>)
    requires PlanPaths(paths, plan) && k < |paths| && Midway(original, ws, plan, paths, k, backups)
    modifies ws`files, ws`missed, ws`undoFault, ws`fault
    ensures Calm(old(ws.fault), old(ws.undoFault), ws)
    ensures old(ws.undoFault) ==> ws.undoFault
    ensures !ws.fault ==> error == None && ws.missed == old(ws.missed)
    ensures error == None ==> ws.undoFault == old(ws.undoFault) && Midway(original, ws, plan, paths, k + 1, next)
    ensures error.Some? ==> RolledBack(original, ws, plan, paths)
  {
    hide Progress, Undoable, UsedUp, SameOutside, Region, RolledBack, MissedFiles;
    var resolved := ws.Resolve(paths[k]);
    if !resolved {
      GiveUp(ws, plan, paths, k, backups, original);
      return Some(InvalidPath), backups;
    }
    ghost var missed := ws.missed;
    var b := BackUp(ws, paths[k]);
    if b == None {
      GiveUp(ws, plan, paths, k, backups, original);
      return Some(ApplyFailed), backups;
    }
    next := backups + [b.value];
    BackupsSnoc(backups, paths, k, b.value);
    ghost var hidden := if paths[k] in ws.files && !b.value.existed then {paths[k]} else {};
    MissesOneMore(original, ws.files, plan, paths, k, backups, b.value, missed, hidden);
    var ok := PlaceOne(ws, plan, paths, k, next, original);
    if !ok {
      return Some(ApplyFailed), next;
    }
    return None, next;
  }

  lemma MidwayStart(ws: LiveWorkspace, plan: Plan, paths: seq<string>)
    requires PlanPaths(paths, plan) && ws.missed == {}
    ensures Midway(ws.files, ws, plan, paths, 0, [])
  {
    assert ws.files - {} == ws.files && paths[..0] == [];
  }

  /**
   Puts every planned path in place, in order, backing each one up first. `failAfter` is a hook
   that fails on purpose after so many paths. Afterwards `missed` holds the files that the backup
   probes of this apply missed.
   */
  method ApplyPaths(ws: LiveWorkspace, plan: Plan, paths: seq<string>, failAfter: int) returns (error: Option<Code>)
    requires PlanPaths(paths, plan)
    modifies ws`files, ws`missed, ws`undoFault, ws`fault
    ensures Calm(old(ws.fault), old(ws.undoFault), ws)
    ensures old(ws.undoFault) ==> ws.undoFault
    ensures SameOutside(old(ws.files), ws.files, Region(plan))
    ensures MissedFiles(old(ws.files), plan, ws.missed, paths)
    ensures !ws.fault ==> ws.missed == {}
    ensures !ws.fault ==> error == if 0 < failAfter <= |paths| then Some(ApplyFailed) else None
    ensures !ws.fault && !ws.undoFault && error.Some? ==> LostFirst(old(ws.files), ws.files, plan, paths, failAfter)
    ensures error == None ==> ws.undoFault == old(ws.undoFault) && (failAfter > 0 ==> |paths| < failAfter)
    ensures error == None ==> ws.files == Progress(old(ws.files), plan, ws.missed, paths)
    ensures error.Some? ==> RolledBack(old(ws.files), ws, plan, paths)
  {
    hide Progress, UsedUp, Undoable, SameOutside, Region, Staging, MissedFiles;
    ws.missed := {};
    MidwayStart(ws, plan, paths);
    var backups: seq<Backup> := [];
    var applied := 0;
    ghost var original := ws.files;
    for k := 0 to |paths|
      invariant applied == k && (failAfter > 0 ==> k < failAfter)
      invariant ws.undoFault == old(ws.undoFault) && (old(ws.fault) ==> ws.fault)
      invariant !ws.fault ==> ws.missed == {}
      invariant Midway(original, ws, plan, paths, k, backups)
    {
      error, backups := ApplyOnePath(ws, plan, paths, k, backups, original);
      if error.Some? {
        return;
      }
      applied := applied + 1;
      if failAfter > 0 && applied >= failAfter {
        GiveUp(ws, plan, paths, k + 1, backups, original);
        assert original - {} == original;
        return Some(ApplyFailed);
      }
    }
    assert paths[..|paths|] == paths;
    return None;
  }

  // ----- When a failed apply restores the disk -----

  lemma {:induction false} UsedUpIff(plan: Plan, paths: seq<string>, k: nat, q: string)
    requires PlanPaths(paths, plan) && k <= |paths|
    ensures q in UsedUp(plan, paths, k) <==> exists i :: 0 <= i < k && plan[paths[i]].Write? && q == TmpOf(paths[i])
  {
    if k > 0 {
      UsedUpIff(plan, paths, k - 1, q);
    }
  }

  lemma NothingLost(files: Files, lost: set<string>)
    ensures files - lost == files <==> files.Keys !! lost
  {
    if files.Keys !! lost {
      assert forall p :: p in files ==> p !in lost;
    } else {
      var p :| p in files && p in lost;
      assert p !in files - lost;
    }
  }

  /**
   A rolled-back apply has restored the disk exactly when no file sat at a staging path it used and
   no backup probe missed a file.
   */
  lemma RestoredIffNothingInTheWay(
    original: Files, missed: set<string>, files: Files, plan: Plan, paths: seq<string>, k: nat)
    requires PlanPaths(paths, plan) && MissedFiles(original, plan, missed, paths)
    requires LostFirst(original - missed, files, plan, paths, k)
    ensures files == original <==>
              missed == {} && forall i :: 0 <= i < k && plan[paths[i]].Write? ==> TmpOf(paths[i]) !in original
  {
    var used := UsedUp(plan, paths, k);
    assert files == original - (missed + used);
    NothingLost(original, missed + used);
    forall q ensures q in used <==> exists i :: 0 <= i < k && plan[paths[i]].Write? && q == TmpOf(paths[i]) {
      UsedUpIff(plan, paths, k, q);
    }
    if missed != {} {
      var q :| q in missed;
      assert q in original;
    }
  }

  /** A failure after the last path loses a file unless no file sits at any staging path. */
  lemma RollbackExactIff(original: Files, plan: Plan, paths: seq<string>)
    requires PlanPaths(paths, plan)
    ensures LostFirst(original, original, plan, paths, |paths|) <==> TmpClear(original, plan)
    ensures (forall k, files :: LostFirst(original, files, plan, paths, k) ==> files == original) <==>
            TmpClear(original, plan)
  {
    forall q ensures q in UsedUp(plan, paths, |paths|) <==> q in Staging(plan) {
      UsedUpIff(plan, paths, |paths|, q);
    }
    NothingLost(original, Staging(plan));
    if TmpClear(original, plan) {
      forall k, files | LostFirst(original, files, plan, paths, k) ensures files == original {
        UsedUpIsStaging(plan, paths, k);
        NothingLost(original, UsedUp(plan, paths, k));
      }
    } else {
      assert LostFirst(original, original - Staging(plan), plan, paths, |paths|);
    }
  }

  /** A forced stop loses a foreign file at the staging path of what was already in place. */
  method StagingFileIsLost() returns (files: Files, ghost fault: bool)
    ensures !fault ==> files == map[]
  {
    var tmp := TmpOf("a");
    var plan: Plan := map["a" := Write("x")];
    var ws := new LiveWorkspace("ws", map[tmp := "mine"]);
    var error := ApplyPaths(ws, plan, ["a"], 1);
    files, fault := ws.files, ws.fault;
    if !fault {
      assert UsedUp(plan, ["a"], 0) == {} && UsedUp(plan, ["a"], 1) == {} + {tmp};
    }
  }

  /** A stopped apply deletes the file that its backup probe missed. */
  method MissedFileIsDeleted() returns (files: Files, ghost missed: set<string>, ghost undoFault: bool)
    ensures !undoFault ==> files == if "a" in missed then map[] else map["a" := "mine"]
  {
    var plan: Plan := map["a" := Write("x")];
    var ws := new LiveWorkspace("ws", map["a" := "mine"]);
    var error := ApplyPaths(ws, plan, ["a"], 1);
    files, missed, undoFault := ws.files, ws.missed, ws.undoFault;
    assert error.Some?;
    if !undoFault {
      ghost var k :| LostFirst(map["a" := "mine"] - missed, files, plan, ["a"], k);
      UsedUpIsStaging(plan, ["a"], k);
      TmpAfter("a");
    }
  }

  /** A finished apply leaves the file that it was to delete when the backup probe missed it. */
  method MissedDeleteIsSkipped() returns (files: Files, error: Option<Code>, ghost missed: set<string>)
    ensures error == None ==> files == if "a" in missed then map["a" := "mine"] else map[]
  {
    var plan: Plan := map["a" := Remove];
    var ws := new LiveWorkspace("ws", map["a" := "mine"]);
    error := ApplyPaths(ws, plan, ["a"], 0);
    files, missed := ws.files, ws.missed;
    assert ["a"][..0] == [];
  }
}
