/**
 What the contract of `ApplyChanges` means for a user who approved a proposal. Every lemma takes
 what that contract ensures and the fact that the stored proposal came from `Propose`.
 */
module ApplyLaws {
  import opened Changes
  import opened Wrappers
  import opened Proposing
  import opened ProposeLaws
  import opened ExecutionLaws
  import opened DiskApply
  import opened Applying

  /**
   A successful apply leaves the disk on which the change list was executed in its own order,
   exactly when no file of the user's sat at a staging path that the plan does not write and the
   backup probes missed no file that was to be deleted.
   */
  lemma AppliedIsExecuted(
    host: Host, origin: Workspace, cs: ChangeSet, maxBytes: int, p: Proposal,
    before: Workspace, maxBytes': int, missed: set<string>, after: Files)
    requires Injective(host.hash) && MadeFrom(host, origin, cs, maxBytes, p)
    requires Revalidates(host, before, p, maxBytes') && MissedOf(before.files, p.planned, missed)
    requires after == ApplyPlan(before.files - Staging(p.planned), Carried(p.planned, missed))
    ensures Execute(before.files, CleanedAll(host, cs.changes)) == Some(after)
       <==> StagingUnused(before.files, p.planned) && forall q :: q in missed ==> p.planned[q].Write?
  {
    RevalidatedPlan(host, origin, cs, maxBytes, p, before, maxBytes');
    StagingHarmlessIff(before.files, p.planned);
    WholePlanIff(before.files, p.planned, missed);
    if q :| q in missed && p.planned[q].Remove? {
      MissedDeleteStays(host, before.files, p.planned, missed, q, []);
      assert q !in ApplyPlan(before.files, p.planned);
    }
  }

  /** A file whose backup probe missed it is not deleted, and the result lists it as deleted. */
  lemma MissedDeleteStays(
    host: Host, original: Files, plan: Plan, missed: set<string>, q: string, files: seq<FileResult>)
    requires MissedOf(original, plan, missed) && q in missed && plan[q].Remove?
    ensures var after := ApplyPlan(original - Staging(plan), Carried(plan, missed));
            q in after && after[q] == original[q]
    ensures ListsPlan(host, plan, files) ==> FileResult(q, "", true) in files
  {
    if ListsPlan(host, plan, files) {
      var i :| 0 <= i < |files| && files[i].path == q;
      assert files[i] in files;
    }
  }

  /**
   An apply cannot succeed once a base file changed, whatever the revalidation overlooked; if it
   overlooked nothing, the place of a new file must be free.
   */
  lemma AppliedOnUnchangedBase(
    host: Host, origin: Workspace, cs: ChangeSet, maxBytes: int, p: Proposal,
    before: Workspace, maxBytes': int, seen: Files, ch: FileChange)
    requires Injective(host.hash) && MadeFrom(host, origin, cs, maxBytes, p)
    requires Sees(seen, before.files) && Revalidates(host, before.(files := seen), p, maxBytes')
    requires ch in CleanedAll(host, cs.changes)
    ensures ch.NeedsBase() ==>
              ch.path in before.files && ch.path in origin.files && before.files[ch.path] == origin.files[ch.path]
    ensures ch.operation == Create ==> ch.path !in seen
    ensures ch.operation == Rename ==> ch.target !in seen
  {
    AcceptanceSeesDisk(host, origin, cs, maxBytes, ch);
    AcceptanceSeesDisk(host, before.(files := seen), p.changeSet, maxBytes', ch);
  }

  /**
   When no call fails, the answer "the workspace file changed" is given exactly for a base file that
   does not have its hash, and the other refusals of the revalidation are passed on as they are.
*/
  lemma ChangedFileAnswer(host: Host, before: Workspace, p: Proposal, opts: ApplyOptions)
    ensures var again, answer := ProposeOf(host, before, p.changeSet, opts.maxBytes), CalmError(host, before, p, opts);
            && (answer == Some(WorkspaceFileChanged) <==> again == Err(FileHashMismatch))
            && (again.Err? && again.code != FileHashMismatch ==> answer == Some(again.code))
  {
    hide NoConflicts, DiffTextOf, PlanOf, CleanedAll;
    EntriesErrors(host, before.files, opts.maxBytes, CleanedAll(host, p.changeSet.changes));
  }

  /**
   After an apply, no proposal for the revision it ran on can be applied any more, and the proposal
   itself, if it names a base revision, was made for that one.
   */
  lemma OneApplyPerRevision(
    host: Host, before: Workspace, p: Proposal, maxBytes: int, after: Workspace, q: Proposal, maxBytes': int)
    requires Revalidates(host, before, p, maxBytes) && p.changeSet.base.At?
    requires after.revision == before.revision + 1 && q.changeSet.base == p.changeSet.base
    ensures p.changeSet.base.revision == before.revision && !Revalidates(host, after, q, maxBytes')
  {
    RevalidatesAtBase(host, before, p, maxBytes);
    if Revalidates(host, after, q, maxBytes') {
      RevalidatesAtBase(host, after, q, maxBytes');
    }
  }

  /**
   The second hash comparison never fails: a stored proposal whose change set is accepted again
   has the same diff. Changes on disk are caught by the base hashes and existence checks alone.
   */
  lemma AcceptedAgainMeansSameDiff(
    host: Host, origin: Workspace, cs: ChangeSet, maxBytes: int, p: Proposal, before: Workspace, maxBytes': int)
    requires Injective(host.hash) && MadeFrom(host, origin, cs, maxBytes, p)
    ensures ProposeOf(host, before, p.changeSet, maxBytes').Ok? <==> Revalidates(host, before, p, maxBytes')
  {
    if ProposeOf(host, before, p.changeSet, maxBytes').Ok? {
      RevalidatedPlan(host, origin, cs, maxBytes, p, before, maxBytes');
    }
  }

  /** A path the change list does not name keeps its content, unless it was a staging path. */
  lemma AppliedTouchesNamedPathsOnly(
    host: Host, origin: Workspace, cs: ChangeSet, maxBytes: int, p: Proposal,
    before: Files, missed: set<string>, after: Files, q: string)
    requires MadeFrom(host, origin, cs, maxBytes, p)
    requires after == ApplyPlan(before - Staging(p.planned), Carried(p.planned, missed))
    requires !Uses(CleanedAll(host, cs.changes), q) && q !in Staging(p.planned)
    ensures q in after <==> q in before
    ensures q in before ==> after[q] == before[q]
  {
    var changes := CleanedAll(host, cs.changes);
    ProposalMeansExecution(host, origin, cs, maxBytes);
    PlannedPaths(host, origin.files, maxBytes, changes, q);
  }

  /** A file at the staging path of a written path is lost, unless the plan itself writes it. */
  lemma StagingFileIsLostOnSuccess(files: Files, plan: Plan, p: string)
    requires p in plan && plan[p].Write? && TmpOf(p) in files && TmpOf(p) !in plan
    ensures TmpOf(p) !in ApplyPlan(files - Staging(plan), plan) && TmpOf(p) in ApplyPlan(files, plan)
  {
    assert TmpOf(p) in Staging(plan);
  }

  /** The condition is needed: such files and plans exist. */
  lemma StagingLossExample()
    ensures exists files: Files, plan: Plan, p ::
              && p in plan && plan[p].Write? && !StagingUnused(files, plan)
              && TmpOf(p) in files && TmpOf(p) !in ApplyPlan(files - Staging(plan), plan)
  {
    var tmp := TmpOf("a");
    var files: Files := map[tmp := "mine"];
    var plan: Plan := map["a" := Write("x")];
    TmpAfter("a");
    assert "a" in plan && plan["a"].Write? && TmpOf("a") !in plan && TmpOf("a") in files;
    StagingFileIsLostOnSuccess(files, plan, "a");
  }
}
