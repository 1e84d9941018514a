/**
 What the Hub tells and what its proposals are made of: every apply that the server asks for is
 answered, the server hears of exactly the successful ones, no view allows an apply, and a stored
 proposal consists of the drafts of the event with the base hashes of the disk.
 */
module HubMessages {
  import opened Wrappers
  import opened Changes
  import opened UnifiedDiff
  import opened ContentChange
  import opened Proposing
  import opened ProposalStore
  import opened DiskApply
  import opened Applying
  import opened ActualDiff
  import opened Hub
  import opened HubRuns

  // ----- Answers to an apply stage -----

  /** The work item that a completion is reported for: that of the review, else that of the event. */
  function ReportedItem(p: Pending, ev: ServerEvent): string {
    if p.workItemId != "" then p.workItemId else Brought(ev, "work_item_id")
  }

  /** The workspace at its next revision. */
  ghost predicate MovedOn(s: Agent, t: Agent, id: string) {
    id in s.disks && id in t.disks && t.disks[id].revision == s.disks[id].revision + 1
  }

  /**
   An apply stage with something pending is answered once. It is "applied" exactly if the review
   showed no edit line or the workspace got its next revision, which the answer then names; and the
   server is told of exactly these, if there is a stream and something to name.
   */
  lemma ApplyIsAnswered(cfg: Config, s: Agent, e: Event, t: Agent)
    requires Step(cfg, s, e, t) && IsStage(e, "APPLYING_CHANGE") && s.pending.changeSetId != ""
    ensures |e.out| > 1 && e.out[0].Relay?
    ensures var p, answer, item := s.pending, e.out[1], ReportedItem(s.pending, e.ev);
            && (p.same ==> answer == Applied(p.changeSetId, p.workspaceId, None) && t.disks == s.disks)
            && (!p.same && !cfg.registered ==> answer == Skipped && t.disks == s.disks)
            && (!p.same && cfg.registered ==>
                  if MovedOn(s, t, p.workspaceId)
                  then answer == Applied(p.changeSetId, p.workspaceId, Some(t.disks[p.workspaceId].revision))
                  else answer.Refused? && t.table == s.table)
            && e.out[2..] == (if answer.Applied? && cfg.connected && item != "" && p.workspaceId != ""
                              then [CompletedSent(item, p.workspaceId, p.changeSetId, p.same)] else [])
  {
    hide Authorizes, Stamped;
    assert "APPLYING_CHANGE"[0] != "COMPLETED"[0] && "APPLYING_CHANGE"[0] != "REJECTED"[0];
    StampedIsBrought(e.ev, "work_item_id");
    StageIsAnswered(cfg, Noticed(s, e.ev), Stamped(e.ev), t, e.out[1..], ReportedItem(s.pending, e.ev));
    assert e.out[1..][0] == e.out[1] && e.out[1..][1..] == e.out[2..];
  }

  lemma StageIsAnswered(cfg: Config, s: Agent, data: Data, t: Agent, out: seq<Out>, item: string)
    requires Authorizes(cfg, s, data, t, out)
    requires Text(data, "stage") == "APPLYING_CHANGE" && s.pending.changeSetId != ""
    requires item == if s.pending.workItemId == "" then Text(data, "work_item_id") else s.pending.workItemId
    ensures t.pending == NOTHING && out != []
    ensures var p, answer := s.pending, out[0];
            && (p.same ==> answer == Applied(p.changeSetId, p.workspaceId, None) && t.disks == s.disks)
            && (!p.same && !cfg.registered ==> answer == Skipped && t.disks == s.disks)
            && (!p.same && cfg.registered ==>
                  if MovedOn(s, t, p.workspaceId)
                  then answer == Applied(p.changeSetId, p.workspaceId, Some(t.disks[p.workspaceId].revision))
                  else answer.Refused? && t.table == s.table)
            && out[1..] == (if answer.Applied? && cfg.connected && item != "" && p.workspaceId != ""
                            then [CompletedSent(item, p.workspaceId, p.changeSetId, p.same)] else [])
  {
    hide Applies;
    assert "APPLYING_CHANGE"[0] != "REJECTED"[0];
    if !s.pending.same && cfg.registered {
      var r, faults :| Applies(cfg, s.(pending := NOTHING), RequestOf(s.pending), Covers(s.pending), r, faults, t)
                       && out == ApplyMessages(cfg, item, r);
      AppliedMovesOn(cfg, s.(pending := NOTHING), RequestOf(s.pending), Covers(s.pending), r, faults, t);
    }
  }

  lemma AppliedMovesOn(cfg: Config, s: Agent, req: ApplyRequest, approval: ApprovalValidator,
                       r: Result<ApplyResult>, faults: Faults, t: Agent)
    requires Applies(cfg, s, req, approval, r, faults, t)
    ensures r.Ok? <==> MovedOn(s, t, req.workspaceId)
    ensures r.Ok? ==> r.value.changeSetId == req.changeSetId && r.value.workspaceId == req.workspaceId
                      && r.value.revision == t.disks[req.workspaceId].revision
    ensures r.Err? ==> t.table == s.table
    ensures t.pending == s.pending
  {
    hide SameOutside, Region, MissedOf, PutBack, Revalidates, ListsPlan;
    NotRefusedIff(cfg.host, s.disks.Keys, s.table, approval, req);
  }

  // ----- Views -----

  /** A proposal event is refused, or ends in a review of some view. */
  lemma ReviewsShape(cfg: Config, s: Agent, data: Data, proposed: Drafts, newId: string, t: Agent, out: seq<Out>)
    returns (view: Data, table: Table)
    requires Reviews(cfg, s, data, proposed, newId, t, out)
    ensures (t == s && |out| == 1 && out[0].Refused?) || Reviewed(cfg, s.(table := table), view, t, out)
  {
    hide Prepares, Reviewed, ViewOf, JoinedDiff, SortByPath, AllParts;
    view, table := data, s.table;
    if proposed.Some? {
      var (given, drafts) := proposed.value;
      var id := if given == "" then "CS-unknown" else given;
      if cfg.registered {
        var r :| Prepares(cfg, s, if cfg.host.isChangeSetId(id) then id else newId, drafts, r)
                 && Outcome(cfg, s, data, r, t, out);
        if r.Ok? {
          var p := r.value;
          view := ViewOf(data, p.changeSet.id, p.changeSet.workspaceId, p.diff, p.diffHash);
          table := PutIn(s.table, p);
        }
      } else {
        var workspace := if Text(data, "workspace_id") == "" then cfg.workspaceId else Text(data, "workspace_id");
        var diff := JoinedDiff(SortByPath(AllParts(drafts, cfg.oldContent)));
        view := ViewOf(data, id, workspace, diff, cfg.host.hash(diff));
      }
    }
  }

  /** No view that the Hub shows allows an apply. */
  lemma NoViewAllowsAnApply(cfg: Config, s: Agent, e: Event, t: Agent, m: Out)
    requires Step(cfg, s, e, t) && e.Server? && m in e.out
    ensures (m.DesignShown? || m.DiffReview?) ==> !m.canApply
  {
    hide Reviews, Authorizes, Stamped, BindFrom, BindMessage, HasEditLine, Split;
    if e.ev.kind == ChangeProposed {
      var view, table := ReviewsShape(cfg, Noticed(s, e.ev), Stamped(e.ev), e.ev.proposed, e.newId, t, e.out);
    } else if e.ev.kind == Progress {
      ProgressShowsNothing(cfg, Noticed(s, e.ev), Stamped(e.ev), t, e.out[1..]);
      assert m == e.out[0] || m in e.out[1..];
    }
  }

  lemma ProgressShowsNothing(cfg: Config, s: Agent, data: Data, t: Agent, out: seq<Out>)
    requires Progresses(cfg, s, data, t, out)
    ensures forall m :: m in out ==> !m.DesignShown? && !m.DiffReview?
  {
    hide Applies, RequestOf, Covers;
  }

  /** A proposal that cannot be read or made is refused, and leaves everything as it was. */
  lemma RefusedReviewChangesNothing(cfg: Config, s: Agent, e: Event, t: Agent)
    requires Step(cfg, s, e, t) && e.Server? && e.ev.kind == ChangeProposed && !Shows(e)
    ensures |e.out| == 1 && e.out[0].Refused? && t == Noticed(s, e.ev)
  {
    hide Reviews, Stamped, BindFrom, BindMessage, HasEditLine, Split;
    var view, table := ReviewsShape(cfg, Noticed(s, e.ev), Stamped(e.ev), e.ev.proposed, e.newId, t, e.out);
  }

  /** The hash that is shown and pushed is that of the diff that is shown. */
  lemma ShownHashIsOfShownDiff(cfg: Config, s: Agent, e: Event, t: Agent)
    requires Step(cfg, s, e, t) && Shows(e)
    ensures Text(ViewIn(e), "diff_hash") == cfg.host.hash(Text(ViewIn(e), "actual_diff"))
    ensures !cfg.registered ==> t.table == s.table && t.disks == s.disks && t.pending == s.pending
  {
    hide Step, StoresReview;
    if cfg.registered {
      var p := ReviewStep(cfg, s, e, t);
      StoredHash(cfg, s, e, t, p.value);
    } else {
      UnstoredHash(cfg, s, e, t);
    }
  }

  lemma StoredHash(cfg: Config, s: Agent, e: Event, t: Agent, p: Proposal)
    requires StoresReview(cfg, s, e, t, p)
    ensures Text(ViewIn(e), "diff_hash") == cfg.host.hash(Text(ViewIn(e), "actual_diff"))
  {
    hide Made, Prepares, ShowsEdit;
    MadeHash(cfg.host, p);
  }

  lemma UnstoredHash(cfg: Config, s: Agent, e: Event, t: Agent)
    requires Step(cfg, s, e, t) && Shows(e) && !cfg.registered
    ensures Text(ViewIn(e), "diff_hash") == cfg.host.hash(Text(ViewIn(e), "actual_diff"))
    ensures t.table == s.table && t.disks == s.disks && t.pending == s.pending
  {
    hide HasEditLine, Split, BindFrom, BindMessage, JoinedDiff, SortByPath, AllParts, Stamped;
    UnregisteredReview(cfg, Noticed(s, e.ev), Stamped(e.ev), e.ev.proposed, e.newId, t, e.out);
  }

  /** Without a registered workspace the view names the event's workspace, or else the Hub's own. */
  lemma UnregisteredView(cfg: Config, s: Agent, e: Event, t: Agent)
    requires Step(cfg, s, e, t) && Shows(e) && !cfg.registered
    ensures e.ev.proposed.Some?
    ensures Text(ViewIn(e), "change_set_id") ==
            if e.ev.proposed.value.0 == "" then "CS-unknown" else e.ev.proposed.value.0
    ensures Text(ViewIn(e), "workspace_id") ==
            if Brought(e.ev, "workspace_id") == "" then cfg.workspaceId else Brought(e.ev, "workspace_id")
  {
    hide HasEditLine, Split, BindFrom, BindMessage, JoinedDiff, SortByPath, AllParts, Stamped;
    StampedIsBrought(e.ev, "workspace_id");
  }

  lemma MadeHash(host: Host, p: Proposal)
    requires Made(host, p)
    ensures p.diffHash == host.hash(p.diff)
  {
    hide DiffTextOf, PlanOf, NoConflicts, Entries, Validate;
  }

  /** The proposal is stored under the id that came with it, or under a new one if that is none. */
  lemma ReviewKeepsItsId(cfg: Config, s: Agent, e: Event, t: Agent)
    requires Step(cfg, s, e, t) && Shows(e) && cfg.registered
    ensures e.ev.proposed.Some?
    ensures var given := e.ev.proposed.value.0;
            var named := if given == "" then "CS-unknown" else given;
            && (cfg.host.isChangeSetId(named) ==> Text(ViewIn(e), "change_set_id") == named)
            && (!cfg.host.isChangeSetId(named) ==> Text(ViewIn(e), "change_set_id") == e.newId)
  {
    hide Reviewed, Prepares, ViewOf, Made;
    var s1, data := Noticed(s, e.ev), Stamped(e.ev);
    var (given, drafts) := e.ev.proposed.value;
    var id := if given == "" then "CS-unknown" else given;
    var csId := if cfg.host.isChangeSetId(id) then id else e.newId;
    var r :| Prepares(cfg, s1, csId, drafts, r) && Outcome(cfg, s1, data, r, t, e.out);
    RegisteredReview(cfg, s, e, t, csId, drafts, r.value);
    PreparedIsMade(cfg, s1, csId, drafts, r.value);
  }

  /** Only a review that names change set, workspace, approval and hash is ever pending. */
  lemma PendingIsComplete(cfg: Config, states: seq<Agent>, events: seq<Event>, k: nat)
    requires Run(cfg, states, events) && k <= |events|
    ensures var p := states[k].pending;
            p != NOTHING ==> p.changeSetId != "" && p.workspaceId != "" && p.approvalId != "" && p.diffHash != ""
  {
    hide Step;
    PendingIsLastReview(cfg, states, events, k);
  }

  /** What a review leaves pending is what it shows, for the approval and the work item of the event. */
  lemma PendingIsAsShown(cfg: Config, s: Agent, e: Event, t: Agent)
    requires Step(cfg, s, e, t) && Remembers(cfg, e)
    ensures var p, view := t.pending, ViewIn(e);
            && p.changeSetId == Text(view, "change_set_id") && p.workspaceId == Text(view, "workspace_id")
            && p.diffHash == Text(view, "diff_hash")
            && p.approvalId == Brought(e.ev, "approval_id") && p.workItemId == Brought(e.ev, "work_item_id")
  {
    hide Step, StoresReview, Pushes, Brought, Complete;
    var shown := ReviewStep(cfg, s, e, t);
    ReviewIsPushed(cfg, s, e, t);
  }

  /** Both have these fields of an approval in common. */
  ghost predicate SameApproval(bind: Data, data: Data) {
    && Text(bind, "approval_id") == Text(data, "approval_id")
    && Text(bind, "work_item_id") == Text(data, "work_item_id")
    && Text(bind, "workspace_id") == Text(data, "workspace_id")
    && Text(bind, "resource_id") == Text(data, "resource_id")
    && Text(bind, "design_identity") == Text(data, "design_identity")
  }

  lemma BindHolds(data: Data, withDiff: bool)
    ensures SameApproval(BindFrom(data, withDiff), data)
    ensures withDiff ==> Text(BindFrom(data, withDiff), "diff_hash") == Text(data, "diff_hash")
    ensures !withDiff ==> "diff_hash" !in BindFrom(data, withDiff)
  {
    assert "diff_hash" !in BIND_KEYS by {
      assert "diff_hash"[0] == 'd' && "design_identity"[1] == 'e' && "diff_hash"[1] == 'i';
    }
  }

  /**
   The last approval that was shown is kept for the user's decision: a code approval with its hash,
   a design approval without one. Only a completion forgets it.
*/
  lemma LastBindIsShown(cfg: Config, s: Agent, e: Event, t: Agent)
    requires Step(cfg, s, e, t)
    ensures Shows(e) ==>
              SameApproval(t.lastBind, ViewIn(e)) && Text(t.lastBind, "diff_hash") == Text(ViewIn(e), "diff_hash")
    ensures e.Server? && e.ev.kind == DesignReview ==>
              SameApproval(t.lastBind, Stamped(e.ev)) && "diff_hash" !in t.lastBind
    ensures !Shows(e) && !IsStage(e, "COMPLETED") && !(e.Server? && e.ev.kind == DesignReview) ==>
              t.lastBind == s.lastBind
  {
    hide HasEditLine, Split, BindFrom, BindMessage, Reviews, Authorizes, Stamped, PendingOf, Complete, SameApproval;
    if e.Server? && e.ev.kind == ChangeProposed {
      var view, table := ReviewsShape(cfg, Noticed(s, e.ev), Stamped(e.ev), e.ev.proposed, e.newId, t, e.out);
      if Shows(e) {
        BindHolds(ViewIn(e), true);
      }
    } else if e.Server? {
      BindHolds(Stamped(e.ev), false);
      if e.ev.kind == Progress && !IsStage(e, "COMPLETED") {
        StageKeepsBind(cfg, Noticed(s, e.ev), Stamped(e.ev), t, e.out[1..]);
      }
    }
  }

  lemma StageKeepsBind(cfg: Config, s: Agent, data: Data, t: Agent, out: seq<Out>)
    requires Authorizes(cfg, s, data, t, out)
    ensures t.lastBind == s.lastBind && t.lastWorkItem == s.lastWorkItem
  {
    hide AppliesTo, Refusal, RequestOf, Covers;
  }

  /** The last work item is that of the last event that names one, until its workflow is completed. */
  lemma LastWorkItemIs(cfg: Config, s: Agent, e: Event, t: Agent)
    requires Step(cfg, s, e, t) && e.Server? && e.ev.workItemId != "" && !IsStage(e, "COMPLETED")
    ensures t.lastWorkItem == e.ev.workItemId
  {
    hide HasEditLine, Split, BindFrom, BindMessage, Reviews, Authorizes, Stamped, PendingOf, Complete;
    StampedIsBrought(e.ev, "work_item_id");
    if e.ev.kind == ChangeProposed {
      var view, table := ReviewsShape(cfg, Noticed(s, e.ev), Stamped(e.ev), e.ev.proposed, e.newId, t, e.out);
      if Shows(e) {
        ReviewIsPushed(cfg, s, e, t);
      }
    } else if e.ev.kind == Progress {
      StageKeepsBind(cfg, Noticed(s, e.ev), Stamped(e.ev), t, e.out[1..]);
    }
  }

  /** A completed workflow leaves nothing remembered. */
  lemma CompletionForgets(cfg: Config, s: Agent, e: Event, t: Agent)
    requires Step(cfg, s, e, t) && IsStage(e, "COMPLETED")
    ensures t == s.(pending := NOTHING, lastWorkItem := "", lastBind := map[])
  {
    hide Authorizes, Stamped;
  }

  // ----- What a stored proposal is made of -----

  /** The change asks for what the draft asks for, without one leading slash of its paths. */
  ghost predicate SameRequest(draft: FileChange, ch: FileChange) {
    && ch.operation == draft.operation && ch.content == draft.content
    && Unslashed(draft.path, ch.path) && Unslashed(draft.target, ch.target)
  }

  predicate Unslashed(path: string, trimmed: string) {
    if path != "" && path[0] == '/' then path == "/" + trimmed else path == trimmed
  }

  /** The base hash is that of the file on this disk. */
  ghost predicate BasedOn(host: Host, files: Files, ch: FileChange) {
    if ch.NeedsBase() then ch.path in files && ch.baseHash == host.hash(files[ch.path]) else ch.baseHash == ""
  }

  lemma FilledOne(host: Host, files: Files, maxBytes: int, draft: FileChange)
    requires FillOne(host, files, maxBytes, draft).Ok?
    ensures var ch := FillOne(host, files, maxBytes, draft).value;
            SameRequest(draft, ch) && BasedOn(host, files, ch)
  {
    if draft.path != "" && draft.path[0] == '/' {
      assert draft.path == "/" + draft.path[1..];
    }
    if draft.target != "" && draft.target[0] == '/' {
      assert draft.target == "/" + draft.target[1..];
    }
  }

  lemma {:induction false} FilledDrafts(host: Host, files: Files, maxBytes: int, drafts: seq<FileChange>)
    requires Fill(host, files, maxBytes, drafts).Ok?
    ensures var changes := Fill(host, files, maxBytes, drafts).value;
            && |changes| == |drafts|
            && forall i :: 0 <= i < |drafts| ==>
                 SameRequest(drafts[i], changes[i]) && BasedOn(host, files, changes[i])
  {
    if drafts != [] {
      hide SameRequest, BasedOn, FillOne;
      var n := |drafts| - 1;
      FilledDrafts(host, files, maxBytes, drafts[..n]);
      FilledOne(host, files, maxBytes, drafts[n]);
    }
  }

  /** The proposal behind a review consists of the drafts of its event, based on the disk of the workspace. */
  lemma ReviewIsOfTheDrafts(cfg: Config, s: Agent, e: Event, t: Agent, p: Proposal)
    requires cfg.registered && StoresReview(cfg, s, e, t, p)
    ensures cfg.workspaceId in s.disks && e.ev.proposed.Some?
    ensures p.changeSet.base == Unset && p.changeSet.workspaceId == s.disks[cfg.workspaceId].id
    ensures var drafts, changes, files := e.ev.proposed.value.1, p.changeSet.changes, s.disks[cfg.workspaceId].files;
            && |changes| == |drafts|
            && forall i :: 0 <= i < |drafts| ==>
                 SameRequest(drafts[i], changes[i]) && BasedOn(cfg.host, files, changes[i])
  {
    hide SameRequest, Fill, DiffTextOf, PlanOf, NoConflicts, Entries, Made, SameBind, ShowsProposal, Validate;
    var ws, drafts := s.disks[cfg.workspaceId], e.ev.proposed.value.1;
    var seen, again :| Sees(seen, ws.files) && Sees(again, ws.files)
                       && Ok(p) == PreparedOn(cfg, ws, seen, again, p.changeSet.id, drafts);
    FilledDrafts(cfg.host, seen, cfg.maxBytes, drafts);
  }

  // ----- The approval that is checked -----

  /** The apply runs only under the very approval, change set and hash that were remembered. */
  lemma CoversIff(p: Pending, approvalId: string, changeSetId: string, hash: string)
    ensures Covers(p)(approvalId, changeSetId, hash) == None <==>
              && approvalId == p.approvalId && changeSetId == p.changeSetId && hash == p.diffHash
              && approvalId != "" && changeSetId != "" && hash != ""
    ensures Covers(p)(approvalId, changeSetId, hash) == Some(ApprovalRequired) <==>
            approvalId == "" || changeSetId == "" || hash == ""
  {
  }

  /** What is written had been remembered in full, and is the unclaimed stored proposal with that id and hash. */
  lemma WriteIsApproved(cfg: Config, s: Agent, e: Event, t: Agent)
    requires Step(cfg, s, e, t) && Writes(s, e, t)
    ensures var p := s.pending;
            && p.approvalId != "" && p.diffHash != ""
            && p.changeSetId in s.table && !s.table[p.changeSetId].applied && !s.table[p.changeSetId].applying
            && s.table[p.changeSetId].diffHash == p.diffHash
            && s.table[p.changeSetId].changeSet.workspaceId == p.workspaceId
            && p.workspaceId in s.disks
  {
    hide Step, Refusal, Covers, Applies;
    var r, faults := WriteIsAuthorized(cfg, s, e, t);
    NotRefusedIff(cfg.host, s.disks.Keys, s.table, Covers(s.pending), RequestOf(s.pending));
    CoversIff(s.pending, s.pending.approvalId, s.pending.changeSetId, s.pending.diffHash);
  }
}
