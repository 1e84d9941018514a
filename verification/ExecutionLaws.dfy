/**
 What a proposal's plan does: applying it has the effect of executing the change list one change
 at a time, and revalidating an unchanged workspace gives the same plan again.
 */
module ExecutionLaws {
  import opened Wrappers
  import opened Changes
  import opened Proposing
  import opened ProposeLaws

  // ----- Meaning of a change list, one change at a time -----

  /** Executes one change; None when the file it needs is missing or the one it creates exists. */
  function ExecuteOne(files: Files, ch: FileChange): Option<Files> {
    match ch.operation
    case Create => if ch.path in files then None else Some(files[ch.path := ch.content])
    case Modify => if ch.path in files then Some(files[ch.path := ch.content]) else None
    case Delete => if ch.path in files then Some(files - {ch.path}) else None
    case Rename =>
      if ch.path in files && ch.target !in files then
        Some((files - {ch.path})[ch.target := if ch.content == "" then files[ch.path] else ch.content])
      else None
    case Unknown => None
  }

  /** Executes the changes in list order. */
  function Execute(files: Files, changes: seq<FileChange>): Option<Files> {
    if changes == [] then Some(files)
    else
      match Execute(files, changes[..|changes| - 1])
      case None => None
      case Some(before) => ExecuteOne(before, changes[|changes| - 1])
  }

  /** The disk after every planned path has reached its planned state. */
  function ApplyPlan(files: Files, plan: Plan): Files {
    map p | p in files.Keys + plan.Keys && (p in plan ==> plan[p].Write?)
      :: if p in plan then plan[p].content else files[p]
  }

  function ApplyOne(files: Files, p: string, planned: Planned): Files {
    if planned.Write? then files[p := planned.content] else files - {p}
  }

  lemma PlanStep(files: Files, plan: Plan, p: string, planned: Planned)
    ensures ApplyPlan(files, plan[p := planned]) == ApplyOne(ApplyPlan(files, plan), p, planned)
  {
    var l, r := ApplyPlan(files, plan[p := planned]), ApplyOne(ApplyPlan(files, plan), p, planned);
    forall q ensures q in l <==> q in r {}
    assert forall q :: q in l ==> l[q] == r[q];
  }

  lemma PlanUntouched(files: Files, plan: Plan, p: string)
    requires p !in plan
    ensures p in ApplyPlan(files, plan) <==> p in files
    ensures p in files ==> ApplyPlan(files, plan)[p] == files[p]
  {
  }

  /** Paths used by a list of acceptable changes are exactly the planned ones. */
  lemma PlannedPaths(host: Host, files: Files, maxBytes: int, changes: seq<FileChange>, p: string)
    requires AllDistinct(changes)
    requires Entries(host, files, maxBytes, changes).Ok?
    ensures p in PlanOf(Entries(host, files, maxBytes, changes).value) <==> Uses(changes, p)
  {
    EntriesOkIff(host, files, maxBytes, changes);
    DistinctIff(host, files, maxBytes, changes);
    PlanHolds(Entries(host, files, maxBytes, changes).value);
    EntryPathsOf(host, files, maxBytes, changes, p);
  }

  lemma DistinctPrefix(changes: seq<FileChange>)
    requires AllDistinct(changes) && changes != []
    ensures var n := |changes| - 1;
            && AllDistinct(changes[..n])
            && !Uses(changes[..n], changes[n].path)
            && (changes[n].operation == Rename ==>
                  changes[n].path != changes[n].target && !Uses(changes[..n], changes[n].target))
  {
    var n := |changes| - 1;
    assert forall i :: 0 <= i < n ==> changes[..n][i] == changes[i];
  }

  /** The effect of the last change on the files the earlier ones left. */
  lemma LastChange(host: Host, files: Files, maxBytes: int, ch: FileChange, entries: seq<Entry>, now: Files)
    requires ChangeEntries(host, files, maxBytes, ch).Ok?
    requires now == ApplyPlan(files, PlanOf(entries))
    requires ch.path !in PlanOf(entries)
    requires ch.operation == Rename ==> ch.path != ch.target && ch.target !in PlanOf(entries)
    ensures ExecuteOne(now, ch)
            == Some(ApplyPlan(files, PlanOf(entries + ChangeEntries(host, files, maxBytes, ch).value)))
  {
    var own := ChangeEntries(host, files, maxBytes, ch).value;
    var plan := PlanOf(entries);
    OneOrTwo(entries, own);
    PlanUntouched(files, plan, ch.path);
    EntryPaths(host, files, maxBytes, ch);
    PlanStep(files, plan, ch.path, own[0].plan);
    if ch.operation == Rename {
      PlanUntouched(files, plan, ch.target);
      PlanStep(files, plan[ch.path := own[0].plan], ch.target, own[1].plan);
    }
  }

  /** Executing an accepted list one change at a time succeeds and does what the plan says. */
  lemma {:induction false} PlanIsExecution(host: Host, files: Files, maxBytes: int, changes: seq<FileChange>)
    requires AllDistinct(changes)
    requires Entries(host, files, maxBytes, changes).Ok?
    ensures Execute(files, changes)
            == Some(ApplyPlan(files, PlanOf(Entries(host, files, maxBytes, changes).value)))
  {
    if changes == [] {
      assert ApplyPlan(files, map[]) == files;
    } else {
      var n := |changes| - 1;
      var front, last := changes[..n], changes[n];
      assert changes == front + [last];
      EntriesConcat(host, files, maxBytes, front, [last]);
      var own := ChangeEntries(host, files, maxBytes, last).value;
      assert own + [] == own;
      var entries := Entries(host, files, maxBytes, front).value;
      assert Entries(host, files, maxBytes, changes).value == entries + own;
      DistinctPrefix(changes);
      PlanIsExecution(host, files, maxBytes, front);
      PlannedPaths(host, files, maxBytes, front, last.path);
      PlannedPaths(host, files, maxBytes, front, last.target);
      LastChange(host, files, maxBytes, last, entries, ApplyPlan(files, PlanOf(entries)));
    }
  }

  /**
   A successful proposal's plan, applied to the files it was made from, is the change list
   executed in its own order.
   */
  lemma ProposalMeansExecution(host: Host, ws: Workspace, cs: ChangeSet, maxBytes: int)
    requires ProposeOf(host, ws, cs, maxBytes).Ok?
    ensures AllDistinct(CleanedAll(host, cs.changes))
    ensures Execute(ws.files, CleanedAll(host, cs.changes))
            == Some(ApplyPlan(ws.files, ProposeOf(host, ws, cs, maxBytes).value.planned))
  {
    AcceptedIff(host, ws.files, maxBytes, CleanedAll(host, cs.changes));
    PlanIsExecution(host, ws.files, maxBytes, CleanedAll(host, cs.changes));
  }

  // ----- Revalidation -----

  ghost predicate BasesGiven(changes: seq<FileChange>) {
    forall ch :: ch in changes && ch.NeedsBase() ==> ch.baseHash != ""
  }

  /** On any two disks that accept them, changes with base hashes ask for the same entries. */
  lemma {:induction false} SameBaseSameEntries(
    host: Host, files: Files, others: Files, maxBytes: int, maxBytes': int, changes: seq<FileChange>)
    requires Injective(host.hash) && BasesGiven(changes)
    requires Entries(host, files, maxBytes, changes).Ok? && Entries(host, others, maxBytes', changes).Ok?
    ensures Entries(host, files, maxBytes, changes) == Entries(host, others, maxBytes', changes)
  {
    if changes != [] {
      assert changes[0] in changes;
      assert forall ch :: ch in changes[1..] ==> ch in changes;
      SameBaseSameEntries(host, files, others, maxBytes, maxBytes', changes[1..]);
    }
  }

  /** `p` is what `Propose` returned for `cs` on `origin`, whatever was done to its claim flags since. */
  ghost predicate MadeFrom(host: Host, origin: Workspace, cs: ChangeSet, maxBytes: int, p: Proposal) {
    match ProposeOf(host, origin, cs, maxBytes)
    case Err(_) => false
    case Ok(made) => p == made.(applied := p.applied, applying := p.applying)
  }

  lemma CleanKeepsBases(host: Host, cs: ChangeSet)
    requires Validate(host, cs)
    ensures BasesGiven(CleanedAll(host, cs.changes))
  {
    var all := CleanedAll(host, cs.changes);
    forall ch | ch in all && ch.NeedsBase() ensures ch.baseHash != "" {
      var k :| 0 <= k < |all| && all[k] == ch;
      assert cs.changes[k] in cs.changes && cs.changes[k].NeedsBase();
    }
  }

  /**
   When a stored proposal's change set is accepted again, its stored plan is the plan for the
   present disk: executing the change list now is applying the stored plan.
   */
  lemma RevalidatedPlan(
    host: Host, origin: Workspace, cs: ChangeSet, maxBytes: int, p: Proposal, now: Workspace, maxBytes': int)
    requires Injective(host.hash)
    requires MadeFrom(host, origin, cs, maxBytes, p)
    requires ProposeOf(host, now, p.changeSet, maxBytes').Ok?
    ensures Execute(now.files, CleanedAll(host, p.changeSet.changes)) == Some(ApplyPlan(now.files, p.planned))
    ensures ProposeOf(host, now, p.changeSet, maxBytes').value.diff == p.diff
  {
    CleanKeepsBases(host, p.changeSet);
    SameBaseSameEntries(host, origin.files, now.files, maxBytes, maxBytes', CleanedAll(host, cs.changes));
    ProposalMeansExecution(host, now, p.changeSet, maxBytes');
  }

  /** What acceptance says about the disk, change by change. */
  lemma AcceptanceSeesDisk(host: Host, ws: Workspace, cs: ChangeSet, maxBytes: int, ch: FileChange)
    requires ProposeOf(host, ws, cs, maxBytes).Ok? && ch in CleanedAll(host, cs.changes)
    ensures ch.NeedsBase() ==> ch.path in ws.files && host.hash(ws.files[ch.path]) == ch.baseHash
    ensures ch.operation == Create ==> ch.path !in ws.files
    ensures ch.operation == Rename ==> ch.target !in ws.files
  {
    hide NoConflicts, DiffTextOf, PlanOf, Entries;
    CleanKeepsBases(host, cs);
    EntriesOkIff(host, ws.files, maxBytes, CleanedAll(host, cs.changes));
  }
}
