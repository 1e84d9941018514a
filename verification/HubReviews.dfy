/**
 What the Hub's content test and its diff hash are worth in a run: which approved changes are
 reported as applied and never written, and how far the written texts are the reviewed ones.
 */
module HubReviews {
  import opened Wrappers
  import opened Changes
  import opened UnifiedDiff
  import opened ContentChange
  import opened Proposing
  import opened ExecutionLaws
  import opened ReviewLaws
  import opened DiskApply
  import opened Applying
  import opened Hub
  import opened HubRuns

  // ----- Changes that are reported and not written -----

  /** The event reports the proposal as applied, without a revision of the workspace. */
  predicate ReportsUnwritten(e: Event, p: Proposal) {
    e.Server? && |e.out| > 1 && e.out[1] == Applied(p.changeSet.id, p.changeSet.workspaceId, None)
  }

  /** At the apply stage the verdict of the review decides. */
  lemma ApplyStageStep(cfg: Config, s: Agent, e: Event, t: Agent)
    requires Step(cfg, s, e, t) && IsStage(e, "APPLYING_CHANGE") && s.pending.changeSetId != ""
    ensures t.pending == NOTHING
    ensures |e.out| > 1
    ensures e.out[1] == Applied(s.pending.changeSetId, s.pending.workspaceId, None) <==> s.pending.same
    ensures s.pending.same ==> t.disks == s.disks && t.table == s.table
  {
    hide AppliesTo, Refusal, Stamped, BindFrom;
    assert "APPLYING_CHANGE"[0] != "COMPLETED"[0] && "APPLYING_CHANGE"[0] != "REJECTED"[0];
  }

  /** The workspace as a review saw it, and the change set it proposed there. */
  lemma ReviewedOrigin(cfg: Config, s: Agent, e: Event, t: Agent, p: Proposal)
    returns (origin: Workspace, cs: ChangeSet)
    requires cfg.registered && StoresReview(cfg, s, e, t, p)
    ensures ProposeOf(cfg.host, origin, cs, cfg.maxBytes) == Ok(p)
    ensures cfg.workspaceId in s.disks && Sees(origin.files, s.disks[cfg.workspaceId].files)
  {
    var id, drafts := p.changeSet.id, e.ev.proposed.value.1;
    var ws := s.disks[cfg.workspaceId];
    var seen, again :| Sees(seen, ws.files) && Sees(again, ws.files)
                       && Ok(p) == PreparedOn(cfg, ws, seen, again, id, drafts);
    origin := ws.(files := again);
    cs := ChangeSet(id, ws.id, Unset, Fill(cfg.host, seen, cfg.maxBytes, drafts).value);
  }

  /**
   In every run, when the server reports that the pending change is being applied, the Hub answers
   "applied" and writes nothing exactly if the latest remembered review showed no edit line. This
   happens to a plan that would have changed the disk the review saw exactly if the change list
   did more there than rewrite files as they were and no touched path had a visible edit.
   */
  lemma OverlookedIsReported(cfg: Config, states: seq<Agent>, events: seq<Event>, k: nat)
    returns (j: nat, p: Proposal, origin: Workspace, cs: ChangeSet)
    requires Run(cfg, states, events) && k < |events|
    requires IsStage(events[k], "APPLYING_CHANGE") && states[k].pending.changeSetId != ""
    ensures j < k && LastReview(cfg, events[..k]) == Some(j)
    ensures StoresReview(cfg, states[j], events[j], states[j + 1], p)
    ensures ProposeOf(cfg.host, origin, cs, cfg.maxBytes) == Ok(p)
    ensures cfg.workspaceId in states[j].disks && Sees(origin.files, states[j].disks[cfg.workspaceId].files)
    ensures ReportsUnwritten(events[k], p) <==> !ShowsEdit(p)
    ensures ReportsUnwritten(events[k], p) ==>
              states[k + 1].disks == states[k].disks && states[k + 1].table == states[k].table
    ensures OneLineEntries(EntriesFor(cfg.host, origin, cs, cfg.maxBytes).value) ==>
              (ReportsUnwritten(events[k], p) && ApplyPlan(origin.files, p.planned) != origin.files <==>
                !ChangesNothing(origin.files, CleanedAll(cfg.host, cs.changes))
                && !HasVisibleEntry(EntriesFor(cfg.host, origin, cs, cfg.maxBytes).value))
  {
    hide Step, HasEditLine, Split, HasVisibleEntry, ApplyPlan, ChangesNothing, EntriesFor, ProposeOf, Prepares, Made;
    PendingIsLastReview(cfg, states, events, k);
    j := LastReview(cfg, events[..k]).value;
    assert events[..k][j] == events[j];
    var shown := ReviewStep(cfg, states[j], events[j], states[j + 1]);
    p := shown.value;
    origin, cs := ReviewedOrigin(cfg, states[j], events[j], states[j + 1], p);
    ApplyStageStep(cfg, states[k], events[k], states[k + 1]);
    AcceptedEntries(cfg.host, origin, cs, cfg.maxBytes);
    if OneLineEntries(EntriesFor(cfg.host, origin, cs, cfg.maxBytes).value) {
      OverlookedIff(cfg.host, origin, cs, cfg.maxBytes);
    }
  }

  /** Such runs exist for every proposal without an edit line: it is reviewed, approved, and never written. */
  lemma OverlookedChangeIsNotWritten(
    cfg: Config, s: Agent, item: string, foreign: string, approvalId: string, drafts: seq<FileChange>, p: Proposal)
    returns (states: seq<Agent>, events: seq<Event>)
    requires Proposed(cfg, s, drafts, p) && !ShowsEdit(p)
    requires s.pending == NOTHING && TableOk(cfg.host, s.table) && approvalId != ""
    ensures Run(cfg, states, events) && |events| == 2 && states[0] == s && states[2].disks == s.disks
    ensures events[0] == Reviewing(cfg, item, approvalId, drafts, p)
    ensures events[1].Server? && events[1].ev == ApplyStarted(foreign) && ReportsUnwritten(events[1], p)
  {
    ReviewingIsStep(cfg, s, item, approvalId, drafts, p);
    PreparedAgain(cfg, s, p.changeSet.id, drafts, p);
    PendingAfterReview(cfg, s, item, approvalId, p);
    var t := AfterReview(cfg, s, item, approvalId, p);
    var out := SkipCanHappen(cfg, t, foreign);
    hide Handles, TableOk, AfterReview, Proposed, Reviewing, ShowsEdit;
    var u := Noticed(t, ApplyStarted(foreign)).(pending := NOTHING);
    var first, second := Reviewing(cfg, item, approvalId, drafts, p), Server(ApplyStarted(foreign), "", out);
    assert Step(cfg, t, second, u);
    StepsAreRun(cfg, [s, t, u], [first, second]);
    return [s, t, u], [first, second];
  }

  lemma SkipCanHappen(cfg: Config, s: Agent, item: string) returns (out: seq<Out>)
    requires s.pending.same && s.pending.changeSetId != ""
    ensures Handles(cfg, s, ApplyStarted(item), "", Noticed(s, ApplyStarted(item)).(pending := NOTHING), out)
    ensures |out| > 1 && out[1] == Applied(s.pending.changeSetId, s.pending.workspaceId, None)
  {
    hide Stamped;
    ApplyingStage(item);
    var data, p := Stamped(ApplyStarted(item)), s.pending;
    var workItem := if p.workItemId == "" then Text(data, "work_item_id") else p.workItemId;
    var told := [Applied(p.changeSetId, p.workspaceId, None)]
        + Notice(cfg, workItem, p.workspaceId, p.changeSetId, true);
    out := [Relay(Progress, data)] + told;
    assert out[1..] == told;
  }

  // ----- Texts that are written -----

  /**
   In every run, what the Hub writes leaves the texts that the latest remembered review would have
   left, up to final newlines, even when another proposal was put under its id in between; a file
   left empty counts as removed.
   */
  lemma WrittenTextsAreReviewed(cfg: Config, states: seq<Agent>, events: seq<Event>, k: nat)
    returns (j: nat, p: Proposal, i: nat, q: Proposal, r: Result<ApplyResult>, faults: Faults)
    requires Run(cfg, states, events) && k < |events| && Writes(states[k], events[k], states[k + 1])
    requires Injective(cfg.host.hash)
    ensures j <= i < k && LastReview(cfg, events[..k]) == Some(j)
    ensures StoresReview(cfg, states[j], events[j], states[j + 1], p)
    ensures p.changeSet.id in states[k].table && SameButFlags(q, states[k].table[p.changeSet.id])
    ensures q.changeSet.workspaceId in states[k].disks && q.changeSet.workspaceId in states[k + 1].disks
    ensures var ws := q.changeSet.workspaceId;
            AppliesTo(cfg, states[k].disks[ws], q, r, faults, states[k + 1].disks[ws])
    ensures PlainPaths(p.planned) && PlainPaths(q.planned) ==> SameTexts(p.planned, q.planned)
  {
    hide AppliesTo, Prepares, Run, Step, Writes, MadeFrom, PlainPaths, SameTexts, Printed, PartsOf;
    j, p, i, q, r, faults := WrittenIsTheLastPut(cfg, states, events, k);
    TablesAreMade(cfg, states, events, i + 1);
    SameHashSameDiff(cfg.host, p, q);
    var a, cs, m :| MadeFrom(cfg.host, a, cs, m, p);
    var b, cs', m' :| MadeFrom(cfg.host, b, cs', m', q);
    if PlainPaths(p.planned) && PlainPaths(q.planned) {
      SameDiffSameTexts(cfg.host, a, cs, m, p, b, cs', m', q);
    }
  }
}
