/**
 Runs of the Hub: any sequence of server events, with anything happening to the disks and the
 proposal store in between. The disk changes only for a proposal that was reviewed, once per
 review, never after a rejection or a completion, and what is written has the reviewed diff.
 */
module HubRuns {
  import opened Wrappers
  import opened Changes
  import opened UnifiedDiff
  import opened ContentChange
  import opened Proposing
  import opened ExecutionLaws
  import opened ProposalStore
  import opened DiskApply
  import opened Applying
  import opened Hub

  // ----- Runs -----

  /** `Edit` is any change of the disks by others, `Store` a use of the proposal store by others. */
  datatype Event = Server(ev: ServerEvent, newId: string, out: seq<Out>) | Edit | Store(action: StoreAction)

  datatype StoreAction =
    | PutOther(p: Proposal) | ClaimOther(id: string) | AbortOther(id: string) | FinishOther(id: string)

  function Acted(table: Table, a: StoreAction): Table {
    match a
    case PutOther(p) => PutIn(table, p)
    case ClaimOther(id) => if Claimable(table, id) then ClaimIn(table, id) else table
    case AbortOther(id) => AbortIn(table, id)
    case FinishOther(id) => if Finishable(table, id) then FinishIn(table, id) else table
  }

  /** A proposal as `Propose` made it, up to its claim flags. */
  ghost predicate Made(host: Host, p: Proposal) {
    exists origin, cs, maxBytes :: MadeFrom(host, origin, cs, maxBytes, p)
  }

  ghost predicate TableOk(host: Host, table: Table) {
    forall id :: id in table ==> table[id].changeSet.id == id && Made(host, table[id])
  }

  ghost predicate Step(cfg: Config, s: Agent, e: Event, t: Agent) {
    match e
    case Server(ev, newId, out) => Handles(cfg, s, ev, newId, t, out)
    case Edit => t == s.(disks := t.disks)
    case Store(a) => t == s.(table := Acted(s.table, a)) && (a.PutOther? ==> Made(cfg.host, a.p))
  }

  ghost predicate Run(cfg: Config, states: seq<Agent>, events: seq<Event>) {
    && |states| == |events| + 1
    && states[0].pending == NOTHING && TableOk(cfg.host, states[0].table)
    && forall k :: 0 <= k < |events| ==> Step(cfg, states[k], events[k], states[k + 1])
  }

  // ----- Reviews -----

  /** The event ended with a diff shown to the user. */
  predicate Shows(e: Event) {
    e.Server? && e.ev.kind == ChangeProposed && e.out != [] && e.out[|e.out| - 1].DiffReview?
  }

  function ViewIn(e: Event): Data
    requires Shows(e)
  {
    e.out[|e.out| - 1].view
  }

  /** What the review of this event asks to be applied. */
  function ReviewOf(e: Event): Pending
    requires Shows(e)
  {
    PendingOf(ViewIn(e), e.out[|e.out| - 1].same)
  }

  /** A review that leaves a proposal ready to be applied. */
  predicate Remembers(cfg: Config, e: Event) { Shows(e) && cfg.registered && Complete(ReviewOf(e)) }

  /** The last event that left a proposal ready. */
  function LastReview(cfg: Config, events: seq<Event>): (j: Option<nat>)
    ensures j.Some? ==> j.value < |events| && Remembers(cfg, events[j.value])
    ensures j.Some? ==> forall i :: j.value < i < |events| ==> !Remembers(cfg, events[i])
  {
    if events == [] then None
    else if Remembers(cfg, events[|events| - 1]) then Some(|events| - 1)
    else LastReview(cfg, events[..|events| - 1])
  }

  /** The content test takes the proposal for a change. */
  ghost predicate ShowsEdit(p: Proposal) { HasEditLine(Split(p.diff)) }

  /** The view shows this proposal. */
  ghost predicate ShowsProposal(view: Data, p: Proposal) {
    && Text(view, "change_set_id") == p.changeSet.id && Text(view, "workspace_id") == p.changeSet.workspaceId
    && Text(view, "actual_diff") == p.diff && Text(view, "diff_hash") == p.diffHash
  }

  lemma ViewShowsIt(data: Data, p: Proposal)
    ensures ShowsProposal(ViewOf(data, p.changeSet.id, p.changeSet.workspaceId, p.diff, p.diffHash), p)
  {
  }

  lemma PreparedIsMade(cfg: Config, s: Agent, id: string, drafts: seq<FileChange>, p: Proposal)
    requires Prepares(cfg, s, id, drafts, Ok(p))
    ensures Made(cfg.host, p) && p.changeSet.id == id
  {
    var ws := s.disks[cfg.workspaceId];
    var seen, again :| Sees(seen, ws.files) && Sees(again, ws.files) &&
        Ok(p) == PreparedOn(cfg, ws, seen, again, id, drafts);
    var changes := Fill(cfg.host, seen, cfg.maxBytes, drafts).value;
    assert MadeFrom(cfg.host, ws.(files := again), ChangeSet(id, ws.id, Unset, changes), cfg.maxBytes, p);
  }

  /** Both messages agree on these fields. */
  ghost predicate SameBind(bind: Data, view: Data) {
    && Text(bind, "diff_hash") == Text(view, "diff_hash") && Text(bind, "approval_id") == Text(view, "approval_id")
    && Text(bind, "work_item_id") == Text(view, "work_item_id")
    && Text(bind, "workspace_id") == Text(view, "workspace_id")
    && Text(bind, "resource_id") == Text(view, "resource_id")
  }

  /** A shown review sends one bind to the server, for what it shows. */
  ghost predicate Pushes(cfg: Config, e: Event) {
    && Shows(e)
    && if cfg.connected then |e.out| == 2 && e.out[0].BindSent? && SameBind(e.out[0].bind, ViewIn(e)) else |e.out| == 1
  }

  /** A field as the event brings it; the envelope's work item comes first. */
  function Brought(ev: ServerEvent, key: string): string {
    if key == "work_item_id" && ev.workItemId != "" then ev.workItemId
    else if key == "workflow_id" && ev.workflowId != "" then ev.workflowId
    else Text(ev.data, key)
  }

  lemma StampedIsBrought(ev: ServerEvent, key: string)
    ensures Text(Stamped(ev), key) == Brought(ev, key)
  {
    assert "work_item_id"[4] != "workflow_id"[4];
  }

  lemma ViewKeepsFields(data: Data, id: string, workspaceId: string, diff: string, diffHash: string)
    ensures var view := ViewOf(data, id, workspaceId, diff, diffHash);
            && Text(view, "approval_id") == Text(data, "approval_id")
            && Text(view, "work_item_id") == Text(data, "work_item_id")
            && Text(view, "resource_id") == Text(data, "resource_id")
            && "proposed_changes_json" !in view
  {
    assert "approval_id"[0] == 'a' && "actual_diff"[0] == 'a' && "approval_id"[1] != "actual_diff"[1];
    assert "work_item_id"[0] == 'w' && "workspace_id"[0] == 'w' && "work_item_id"[4] != "workspace_id"[4];
    assert "resource_id"[0] == 'r' && "proposed_changes_json"[0] == 'p' && "change_set_id"[0] == 'c' &&
        "diff_hash"[0] == 'd';
  }

  lemma BindKeepsFields(view: Data)
    ensures SameBind(BindMessage(view), view)
  {
  }

  /** Every shown review, remembered or not, pushes the bind of what it shows, for the event's approval. */
  lemma ReviewIsPushed(cfg: Config, s: Agent, e: Event, t: Agent)
    requires Step(cfg, s, e, t) && Shows(e)
    ensures Pushes(cfg, e)
    ensures Text(ViewIn(e), "approval_id") == Brought(e.ev, "approval_id")
    ensures Text(ViewIn(e), "work_item_id") == Brought(e.ev, "work_item_id")
    ensures Text(ViewIn(e), "resource_id") == Brought(e.ev, "resource_id")
    ensures !e.out[|e.out| - 1].canApply
  {
    hide HasEditLine, Split, BindFrom, BindMessage, JoinedDiff, SortByPath, ActualDiff.AllParts, ViewOf, Prepares;
    hide Stamped, PendingOf, SameBind, Noticed, Complete;
    StampedIsBrought(e.ev, "approval_id");
    StampedIsBrought(e.ev, "work_item_id");
    StampedIsBrought(e.ev, "resource_id");
    var data := Stamped(e.ev);
    forall id, workspaceId, diff, diffHash ensures
      var view := ViewOf(data, id, workspaceId, diff, diffHash);
      && Text(view, "approval_id") == Text(data, "approval_id")
      && Text(view, "work_item_id") == Text(data, "work_item_id")
      && Text(view, "resource_id") == Text(data, "resource_id")
    {
      ViewKeepsFields(data, id, workspaceId, diff, diffHash);
    }
    BindKeepsFields(ViewIn(e));
  }

  /** The proposal behind a review, and that it is what the store now holds under its id. */
  ghost predicate StoresReview(cfg: Config, s: Agent, e: Event, t: Agent, p: Proposal) {
    && Shows(e) && e.ev.proposed.Some? && ShowsProposal(ViewIn(e), p)
    && e.out[|e.out| - 1].same == !ShowsEdit(p) && Made(cfg.host, p) && t.table == PutIn(s.table, p)
    && Prepares(cfg, Noticed(s, e.ev), p.changeSet.id, e.ev.proposed.value.1, Ok(p))
  }

  lemma ReviewedPending(cfg: Config, s: Agent, view: Data, t: Agent, out: seq<Out>)
    requires Reviewed(cfg, s, view, t, out)
    ensures out != [] && out[|out| - 1].DiffReview? && out[|out| - 1].view == view
    ensures t.pending == if cfg.registered && Complete(PendingOf(view, out[|out| - 1].same))
                         then PendingOf(view, out[|out| - 1].same) else s.pending
    ensures out[|out| - 1].same == !HasEditLine(Split(Text(view, "actual_diff")))
    ensures t.disks == s.disks && t.table == s.table
  {
    hide HasEditLine, Split, BindFrom, BindMessage;
  }

  lemma RegisteredReview(cfg: Config, s: Agent, e: Event, t: Agent, id: string, drafts: seq<FileChange>, p: Proposal)
    requires cfg.registered && e.Server? && e.ev.kind == ChangeProposed
    requires e.ev.proposed.Some? && e.ev.proposed.value.1 == drafts
    requires Prepares(cfg, Noticed(s, e.ev), id, drafts, Ok(p))
    requires Outcome(cfg, Noticed(s, e.ev), Stamped(e.ev), Ok(p), t, e.out)
    ensures t.disks == s.disks && Shows(e) && StoresReview(cfg, s, e, t, p)
    ensures t.pending == if Remembers(cfg, e) then ReviewOf(e) else s.pending
  {
    hide Reviewed, Prepares, ViewOf, Made, Complete, PendingOf;
    PreparedIsMade(cfg, Noticed(s, e.ev), id, drafts, p);
    var view := ViewOf(Stamped(e.ev), p.changeSet.id, p.changeSet.workspaceId, p.diff, p.diffHash);
    ViewShowsIt(Stamped(e.ev), p);
    ReviewedPending(cfg, Noticed(s, e.ev).(table := PutIn(s.table, p)), view, t, e.out);
  }

  /** A proposal event: the disk stays, a shown review is stored, a complete one is remembered. */
  lemma ReviewStep(cfg: Config, s: Agent, e: Event, t: Agent) returns (p: Option<Proposal>)
    requires Step(cfg, s, e, t) && e.Server? && e.ev.kind == ChangeProposed
    ensures t.disks == s.disks
    ensures t.pending == if Remembers(cfg, e) then ReviewOf(e) else s.pending
    ensures p.Some? <==> cfg.registered && Shows(e)
    ensures if p.Some? then StoresReview(cfg, s, e, t, p.value) else t.table == s.table
  {
    hide Reviewed, Prepares, ViewOf, Made, StoresReview, ReviewOf;
    var s1, data := Noticed(s, e.ev), Stamped(e.ev);
    p := None;
    if e.ev.proposed.Some? {
      var (given, drafts) := e.ev.proposed.value;
      var id := if given == "" then "CS-unknown" else given;
      if cfg.registered {
        var csId := if cfg.host.isChangeSetId(id) then id else e.newId;
        var r :| Prepares(cfg, s1, csId, drafts, r) && Outcome(cfg, s1, data, r, t, e.out);
        if r.Ok? {
          p := Some(r.value);
          RegisteredReview(cfg, s, e, t, csId, drafts, r.value);
        }
      } else {
        UnregisteredReview(cfg, s1, data, e.ev.proposed, e.newId, t, e.out);
      }
    }
  }

  lemma UnregisteredReview(cfg: Config, s: Agent, data: Data, proposed: Drafts, newId: string, t: Agent, out: seq<Out>)
    requires Reviews(cfg, s, data, proposed, newId, t, out) && !cfg.registered
    ensures t.disks == s.disks && t.table == s.table && t.pending == s.pending
  {
    hide HasEditLine, Split, BindFrom, BindMessage, JoinedDiff, SortByPath, ActualDiff.AllParts, ViewOf;
  }

  // ----- Writes -----

  /** A server event during which the disk changed. */
  ghost predicate Writes(s: Agent, e: Event, t: Agent) { e.Server? && t.disks != s.disks }

  predicate IsStage(e: Event, stage: string) {
    e.Server? && e.ev.kind == Progress && Text(Stamped(e.ev), "stage") == stage
  }

  /** The disk changes only while the server applies the change, and for a pending proposal, which is used up. */
  lemma WriteIsAuthorized(cfg: Config, s: Agent, e: Event, t: Agent) returns (r: Result<ApplyResult>, faults: Faults)
    requires Step(cfg, s, e, t) && Writes(s, e, t)
    ensures IsStage(e, "APPLYING_CHANGE") && cfg.registered
    ensures s.pending.changeSetId != "" && !s.pending.same && t.pending == NOTHING
    ensures Applies(cfg, Noticed(s, e.ev).(pending := NOTHING), RequestOf(s.pending), Covers(s.pending), r, faults, t)
    ensures Refusal(cfg.host, s.disks.Keys, s.table, Covers(s.pending), RequestOf(s.pending)) == None
  {
    hide Reviews, Refusal, AppliesTo, BindFrom;
    if e.ev.kind == ChangeProposed {
      var p := ReviewStep(cfg, s, e, t);
    } else {
      var s1, data := Noticed(s, e.ev), Stamped(e.ev);
      var workItem := if s.pending.workItemId == "" then Text(data, "work_item_id") else s.pending.workItemId;
      r, faults :| Applies(cfg, s1.(pending := NOTHING), RequestOf(s.pending), Covers(s.pending), r, faults, t)
                   && e.out[1..] == ApplyMessages(cfg, workItem, r);
    }
  }

  /** What one step does to the pending proposal. */
  lemma PendingStep(cfg: Config, s: Agent, e: Event, t: Agent)
    requires Step(cfg, s, e, t)
    ensures t.pending == if Remembers(cfg, e) then ReviewOf(e) else if t.pending == NOTHING then NOTHING else s.pending
    ensures IsStage(e, "REJECTED") || IsStage(e, "COMPLETED") ==> t.pending == NOTHING
  {
    hide Reviews, AppliesTo, Refusal, BindFrom;
    if e.Server? && e.ev.kind == ChangeProposed {
      var p := ReviewStep(cfg, s, e, t);
    }
  }

  lemma StepKeepsTable(cfg: Config, s: Agent, e: Event, t: Agent)
    requires Step(cfg, s, e, t) && TableOk(cfg.host, s.table)
    ensures TableOk(cfg.host, t.table)
  {
    hide Reviews, AppliesTo, Prepares, BindFrom, Refusal;
    if e.Store? {
      ActedTableOk(cfg.host, s.table, e.action);
    } else if e.Server? {
      if e.ev.kind == ChangeProposed {
        var p := ReviewStep(cfg, s, e, t);
      } else if t.table != s.table {
        ApplyKeepsTable(cfg, s, e, t);
      }
    }
  }

  lemma ActedTableOk(host: Host, table: Table, a: StoreAction)
    requires TableOk(host, table) && (a.PutOther? ==> Made(host, a.p))
    ensures TableOk(host, Acted(table, a))
  {
    hide Made;
    if !a.PutOther? && a.id in table {
      FlagsDoNotMatter(host, table[a.id], table[a.id].applied, true);
      FlagsDoNotMatter(host, table[a.id], table[a.id].applied, false);
      FlagsDoNotMatter(host, table[a.id], true, false);
    }
  }

  lemma FlagsDoNotMatter(host: Host, p: Proposal, applied: bool, applying: bool)
    requires Made(host, p)
    ensures Made(host, p.(applied := applied, applying := applying))
  {
    var origin, cs, maxBytes :| MadeFrom(host, origin, cs, maxBytes, p);
    assert MadeFrom(host, origin, cs, maxBytes, p.(applied := applied, applying := applying));
  }

  lemma AppliedTable(cfg: Config, s: Agent, req: ApplyRequest, approval: ApprovalValidator,
                     r: Result<ApplyResult>, faults: Faults, t: Agent)
    requires Applies(cfg, s, req, approval, r, faults, t)
    ensures t.table == s.table
            || (Claimable(s.table, req.changeSetId)
                && t.table == s.table[req.changeSetId := s.table[req.changeSetId].(applied := true, applying := false)])
  {
    hide AppliesTo;
  }

  lemma FinishedTableOk(host: Host, table: Table, id: string)
    requires TableOk(host, table) && id in table
    ensures TableOk(host, table[id := table[id].(applied := true, applying := false)])
  {
    hide Made;
    FlagsDoNotMatter(host, table[id], true, false);
  }

  lemma ApplyKeepsTable(cfg: Config, s: Agent, e: Event, t: Agent)
    requires Step(cfg, s, e, t) && e.Server? && e.ev.kind != ChangeProposed && t.table != s.table &&
             TableOk(cfg.host, s.table)
    ensures TableOk(cfg.host, t.table)
  {
    hide Applies, BindFrom, TableOk, Reviews;
    var s1, data := Noticed(s, e.ev), Stamped(e.ev);
    var workItem := if s.pending.workItemId == "" then Text(data, "work_item_id") else s.pending.workItemId;
    var r, faults :| Applies(cfg, s1.(pending := NOTHING), RequestOf(s.pending), Covers(s.pending), r, faults, t)
                     && e.out[1..] == ApplyMessages(cfg, workItem, r);
    AppliedTable(cfg, s1.(pending := NOTHING), RequestOf(s.pending), Covers(s.pending), r, faults, t);
    FinishedTableOk(cfg.host, s.table, s.pending.changeSetId);
  }

  // ----- Runs of any length -----

  lemma RunStep(cfg: Config, states: seq<Agent>, events: seq<Event>, k: nat)
    requires Run(cfg, states, events) && 0 < k <= |events|
    ensures Step(cfg, states[k - 1], events[k - 1], states[k])
  {
    hide Step, TableOk;
    assert Step(cfg, states[k - 1], events[k - 1], states[k - 1 + 1]);
  }

  lemma {:induction false} TablesAreMade(cfg: Config, states: seq<Agent>, events: seq<Event>, k: nat)
    requires Run(cfg, states, events) && k <= |events|
    ensures TableOk(cfg.host, states[k].table)
  {
    hide Step, TableOk;
    if k > 0 {
      TablesAreMade(cfg, states, events, k - 1);
      RunStep(cfg, states, events, k);
      StepKeepsTable(cfg, states[k - 1], events[k - 1], states[k]);
    }
  }

  /** What is pending is always the latest remembered review. */
  lemma {:induction false} PendingIsLastReview(cfg: Config, states: seq<Agent>, events: seq<Event>, k: nat)
    requires Run(cfg, states, events) && k <= |events|
    ensures states[k].pending == NOTHING
            || (LastReview(cfg, events[..k]).Some?
                && states[k].pending == ReviewOf(events[LastReview(cfg, events[..k]).value]))
  {
    if k > 0 {
      hide Step, Remembers, ReviewOf;
      PendingIsLastReview(cfg, states, events, k - 1);
      PendingStep(cfg, states[k - 1], events[k - 1], states[k]);
      assert events[..k][..k - 1] == events[..k - 1];
    }
  }

  /** With nothing pending, the disk stays until some review is remembered. */
  lemma {:induction false} NoWriteWithoutReview(cfg: Config, states: seq<Agent>, events: seq<Event>, i: nat, j: nat)
    requires Run(cfg, states, events) && i <= j < |events|
    requires states[i].pending == NOTHING && Writes(states[j], events[j], states[j + 1])
    ensures exists k :: i <= k < j && Remembers(cfg, events[k])
  {
    if forall k :: i <= k < j ==> !Remembers(cfg, events[k]) {
      NothingPending(cfg, states, events, i, j);
      var r, faults := WriteIsAuthorized(cfg, states[j], events[j], states[j + 1]);
      assert false;
    }
  }

  lemma {:induction false} NothingPending(cfg: Config, states: seq<Agent>, events: seq<Event>, i: nat, j: nat)
    requires Run(cfg, states, events) && i <= j <= |events| && states[i].pending == NOTHING
    requires forall k :: i <= k < j ==> !Remembers(cfg, events[k])
    ensures states[j].pending == NOTHING
  {
    if i < j {
      hide Step;
      NothingPending(cfg, states, events, i, j - 1);
      PendingStep(cfg, states[j - 1], events[j - 1], states[j]);
    }
  }

  /** Between two writes a new review was remembered: at most one write per review. */
  lemma OneWritePerReview(cfg: Config, states: seq<Agent>, events: seq<Event>, i: nat, j: nat)
    requires Run(cfg, states, events) && i < j < |events|
    requires Writes(states[i], events[i], states[i + 1]) && Writes(states[j], events[j], states[j + 1])
    ensures exists k :: i < k < j && Remembers(cfg, events[k])
  {
    var r, faults := WriteIsAuthorized(cfg, states[i], events[i], states[i + 1]);
    NoWriteWithoutReview(cfg, states, events, i + 1, j);
  }

  /** After a rejection or a completion nothing is written until a new review is remembered. */
  lemma NoWriteAfterTheEnd(cfg: Config, states: seq<Agent>, events: seq<Event>, i: nat, j: nat)
    requires Run(cfg, states, events) && i < j < |events|
    requires IsStage(events[i], "REJECTED") || IsStage(events[i], "COMPLETED")
    requires Writes(states[j], events[j], states[j + 1])
    ensures exists k :: i < k < j && Remembers(cfg, events[k])
  {
    PendingStep(cfg, states[i], events[i], states[i + 1]);
    NoWriteWithoutReview(cfg, states, events, i + 1, j);
  }

  /**
   What is written is a stored proposal with exactly the diff that the latest remembered review
   showed and whose hash it pushed; only its planned paths and their staging files can change, and
   the outcome is what `ApplyChanges` promises for that proposal.
   */
  lemma WrittenIsReviewed(cfg: Config, states: seq<Agent>, events: seq<Event>, k: nat)
    returns (j: nat, p: Proposal, r: Result<ApplyResult>, faults: Faults)
    requires Run(cfg, states, events) && k < |events| && Injective(cfg.host.hash)
    requires Writes(states[k], events[k], states[k + 1])
    ensures j < k && LastReview(cfg, events[..k]) == Some(j) && Shows(events[j])
    ensures p.changeSet.id in states[k].table && states[k].table[p.changeSet.id] == p
    ensures ShowsProposal(ViewIn(events[j]), p) && Made(cfg.host, p)
    ensures Pushes(cfg, events[j])
    ensures cfg.connected ==>
              var b := events[j].out[0].bind;
              && Text(b, "diff_hash") == p.diffHash == states[k].pending.diffHash
              && Text(b, "approval_id") == states[k].pending.approvalId == Brought(events[j].ev, "approval_id") != ""
              && Text(b, "workspace_id") == p.changeSet.workspaceId
    ensures var ws := p.changeSet.workspaceId;
            && ws in states[k].disks && ws in states[k + 1].disks
            && AppliesTo(cfg, states[k].disks[ws], p, r, faults, states[k + 1].disks[ws])
            && forall id :: id in states[k].disks && id != ws ==>
                 id in states[k + 1].disks && states[k + 1].disks[id] == states[k].disks[id]
  {
    hide AppliesTo;
    r, faults := WriteIsAuthorized(cfg, states[k], events[k], states[k + 1]);
    PendingIsLastReview(cfg, states, events, k);
    j := LastReview(cfg, events[..k]).value;
    ReviewIsPushed(cfg, states[j], events[j], states[j + 1]);
    hide Step;
    TablesAreMade(cfg, states, events, k);
    TablesAreMade(cfg, states, events, j);
    p := states[k].table[states[k].pending.changeSetId];
    var shown := ReviewStep(cfg, states[j], events[j], states[j + 1]);
    SameHashSameDiff(cfg.host, p, shown.value);
  }

  lemma SameHashSameDiff(host: Host, p: Proposal, q: Proposal)
    requires Injective(host.hash) && Made(host, p) && Made(host, q) && p.diffHash == q.diffHash
    ensures p.diff == q.diff
  {
  }

  // ----- Which proposal is written -----

  /** The same proposal, whatever its claim flags. */
  predicate SameButFlags(p: Proposal, q: Proposal) { q == p.(applied := q.applied, applying := q.applying) }

  /** The event puts a proposal under this id: another part does, or a review, remembered or not. */
  predicate PutsUnder(cfg: Config, e: Event, id: string) {
    || (e.Store? && e.action.PutOther? && e.action.p.changeSet.id == id)
    || (Shows(e) && cfg.registered && Text(ViewIn(e), "change_set_id") == id)
  }

  function LastPut(cfg: Config, events: seq<Event>, id: string): (i: Option<nat>)
    ensures i.Some? ==> i.value < |events| && PutsUnder(cfg, events[i.value], id)
    ensures forall m :: (if i.Some? then i.value + 1 else 0) <= m < |events| ==> !PutsUnder(cfg, events[m], id)
  {
    if events == [] then None
    else if PutsUnder(cfg, events[|events| - 1], id) then Some(|events| - 1)
    else LastPut(cfg, events[..|events| - 1], id)
  }

  lemma QuietApply(cfg: Config, s: Agent, e: Event, t: Agent, id: string)
    requires Step(cfg, s, e, t) && e.Server? && e.ev.kind != ChangeProposed && id in s.table
    ensures id in t.table && SameButFlags(s.table[id], t.table[id])
  {
    hide Applies, BindFrom, Reviews;
    if t.table != s.table {
      var s1, data := Noticed(s, e.ev), Stamped(e.ev);
      var workItem := if s.pending.workItemId == "" then Text(data, "work_item_id") else s.pending.workItemId;
      var r, faults :| Applies(cfg, s1.(pending := NOTHING), RequestOf(s.pending), Covers(s.pending), r, faults, t)
                       && e.out[1..] == ApplyMessages(cfg, workItem, r);
      AppliedTable(cfg, s1.(pending := NOTHING), RequestOf(s.pending), Covers(s.pending), r, faults, t);
    }
  }

  /** Without a Put under its id a stored proposal keeps everything but its claim flags. */
  lemma QuietStep(cfg: Config, s: Agent, e: Event, t: Agent, id: string)
    requires Step(cfg, s, e, t) && id in s.table && !PutsUnder(cfg, e, id)
    ensures id in t.table && SameButFlags(s.table[id], t.table[id])
  {
    hide Handles, Made, Prepares;
    if e.Server? {
      if e.ev.kind == ChangeProposed {
        var p := ReviewStep(cfg, s, e, t);
      } else {
        QuietApply(cfg, s, e, t, id);
      }
    }
  }

  lemma {:induction false} KeptSince(cfg: Config, states: seq<Agent>, events: seq<Event>, i: nat, k: nat, id: string)
    requires Run(cfg, states, events) && i <= k <= |events| && id in states[i].table
    requires forall m :: i <= m < k ==> !PutsUnder(cfg, events[m], id)
    ensures id in states[k].table && SameButFlags(states[i].table[id], states[k].table[id])
  {
    if i < k {
      hide Step, PutsUnder;
      KeptSince(cfg, states, events, i, k - 1, id);
      QuietStep(cfg, states[k - 1], events[k - 1], states[k], id);
    }
  }

  /** After a Put under an id the store has that id. */
  lemma PutStores(cfg: Config, s: Agent, e: Event, t: Agent, id: string)
    requires Step(cfg, s, e, t) && PutsUnder(cfg, e, id)
    ensures id in t.table
  {
    hide Handles, Made, Prepares;
    if e.Server? {
      var p := ReviewStep(cfg, s, e, t);
    }
  }

  lemma AppliesWithoutFlags(cfg: Config, ws: Workspace, p: Proposal, q: Proposal, r: Result<ApplyResult>,
    faults: Faults, now: Workspace)
    requires SameButFlags(p, q) && AppliesTo(cfg, ws, q, r, faults, now)
    ensures AppliesTo(cfg, ws, p, r, faults, now)
  {
    hide ProposeOf, ApplyPlan, SameOutside, PutBack, MissedOf, Carried, Region;
  }

  /** A write carries out the stored proposal with the id and hash of the latest remembered review. */
  lemma WriteUsesReview(cfg: Config, states: seq<Agent>, events: seq<Event>, k: nat)
    returns (j: nat, p: Proposal, r: Result<ApplyResult>, faults: Faults)
    requires Run(cfg, states, events) && k < |events| && Writes(states[k], events[k], states[k + 1])
    ensures j < k < |states| - 1 && LastReview(cfg, events[..k]) == Some(j) && cfg.registered
    ensures StoresReview(cfg, states[j], events[j], states[j + 1], p)
    ensures p.changeSet.id in states[k].table
    ensures var now := states[k].table[p.changeSet.id];
            && now.diffHash == p.diffHash
            && now.changeSet.workspaceId in states[k].disks && now.changeSet.workspaceId in states[k + 1].disks
            && AppliesTo(cfg, states[k].disks[now.changeSet.workspaceId], now, r, faults,
                         states[k + 1].disks[now.changeSet.workspaceId])
  {
    hide AppliesTo, Prepares, Made;
    r, faults := WriteIsAuthorized(cfg, states[k], events[k], states[k + 1]);
    PendingIsLastReview(cfg, states, events, k);
    j := LastReview(cfg, events[..k]).value;
    var shown := ReviewStep(cfg, states[j], events[j], states[j + 1]);
    p := shown.value;
  }

  /** From a review on, the store holds the last proposal put under its id, up to its claim flags. */
  lemma LastPutIsStored(cfg: Config, states: seq<Agent>, events: seq<Event>, j: nat, p: Proposal, k: nat)
    returns (i: nat, q: Proposal)
    requires Run(cfg, states, events) && j < k <= |events| && cfg.registered
    requires StoresReview(cfg, states[j], events[j], states[j + 1], p)
    ensures j <= i < k && LastPut(cfg, events[..k], p.changeSet.id) == Some(i)
    ensures p.changeSet.id in states[i + 1].table && states[i + 1].table[p.changeSet.id] == q && (i == j ==> q == p)
    ensures p.changeSet.id in states[k].table && SameButFlags(q, states[k].table[p.changeSet.id])
  {
    hide Step, Prepares, Made;
    var id := p.changeSet.id;
    assert events[..k][j] == events[j] && PutsUnder(cfg, events[j], id);
    i := LastPut(cfg, events[..k], id).value;
    assert events[..k][i] == events[i];
    PutStores(cfg, states[i], events[i], states[i + 1], id);
    q := states[i + 1].table[id];
    forall m | i + 1 <= m < k ensures !PutsUnder(cfg, events[m], id) {
      assert events[..k][m] == events[m];
    }
    KeptSince(cfg, states, events, i + 1, k, id);
  }

  /**
   In every run, what the Hub writes is the last proposal put under the id of the latest
   remembered review, up to its claim flags. `p` is the proposal of that review, `i` the event of
   the last Put; so the reviewed plan is written exactly if that Put brought the same plan.
   */
  lemma WrittenIsTheLastPut(cfg: Config, states: seq<Agent>, events: seq<Event>, k: nat)
    returns (j: nat, p: Proposal, i: nat, q: Proposal, r: Result<ApplyResult>, faults: Faults)
    requires Run(cfg, states, events) && k < |events| && Writes(states[k], events[k], states[k + 1])
    ensures j <= i < k && LastReview(cfg, events[..k]) == Some(j) &&
            LastPut(cfg, events[..k], p.changeSet.id) == Some(i)
    ensures StoresReview(cfg, states[j], events[j], states[j + 1], p)
    ensures p.changeSet.id in states[i + 1].table && states[i + 1].table[p.changeSet.id] == q
    ensures i == j ==> q == p
    ensures q.changeSet.workspaceId in states[k].disks && q.changeSet.workspaceId in states[k + 1].disks
    ensures var ws := q.changeSet.workspaceId; AppliesTo(cfg, states[k].disks[ws], q, r, faults,
            states[k + 1].disks[ws])
    ensures q.diffHash == p.diffHash
    ensures var written := states[k].table;
            && p.changeSet.id in written && SameButFlags(q, written[p.changeSet.id])
            && (written[p.changeSet.id].planned == p.planned <==> q.planned == p.planned)
  {
    hide AppliesTo, Prepares, Made, Run, Writes, Step, Shows, PutsUnder, StoresReview;
    j, p, r, faults := WriteUsesReview(cfg, states, events, k);
    var id := p.changeSet.id;
    i, q := LastPutIsStored(cfg, states, events, j, p, k);
    var now := states[k].table[id];
    AppliesWithoutFlags(cfg, states[k].disks[now.changeSet.workspaceId], q, now, r, faults,
                        states[k + 1].disks[now.changeSet.workspaceId]);
  }

  /**
   If nobody puts another proposal under its id, the Hub writes the very proposal it prepared for
   the latest remembered review, whatever happens to the disks, to other proposals and to claims.
   */
  lemma WrittenIsTheReviewedPlan(cfg: Config, states: seq<Agent>, events: seq<Event>, k: nat)
    returns (j: nat, p: Proposal, r: Result<ApplyResult>, faults: Faults)
    requires Run(cfg, states, events) && k < |events| && Writes(states[k], events[k], states[k + 1])
    requires forall j :: LastReview(cfg, events[..k]) == Some(j) ==>
               forall i :: j < i < k ==> !PutsUnder(cfg, events[i], ReviewOf(events[j]).changeSetId)
    ensures j < k && LastReview(cfg, events[..k]) == Some(j)
    ensures StoresReview(cfg, states[j], events[j], states[j + 1], p)
    ensures p.changeSet.workspaceId in states[k].disks && p.changeSet.workspaceId in states[k + 1].disks
    ensures var ws := p.changeSet.workspaceId; AppliesTo(cfg, states[k].disks[ws], p, r, faults,
            states[k + 1].disks[ws])
  {
    hide AppliesTo, Prepares, Made, Step, PutsUnder;
    var i, q;
    j, p, i, q, r, faults := WrittenIsTheLastPut(cfg, states, events, k);
    assert events[..k][j] == events[j] && events[..k][i] == events[i];
  }

  // ----- The way things go when nothing fails -----

  function ReviewData(item: string, approvalId: string): Data {
    map["work_item_id" := item, "approval_id" := approvalId]
  }

  const APPLY_STAGE: Data := map["stage" := "APPLYING_CHANGE"]

  /** The state after the proposal was reviewed, and what was sent. */
  ghost function AfterReview(cfg: Config, s: Agent, item: string, approvalId: string, p: Proposal): Agent {
    var view := ViewOf(ReviewData(item, approvalId), p.changeSet.id, p.changeSet.workspaceId, p.diff, p.diffHash);
    RememberApply(RememberBind(s.(table := PutIn(s.table, p)), view, true), PendingOf(view, !ShowsEdit(p)))
  }

  ghost function SentByReview(cfg: Config, item: string, approvalId: string, p: Proposal): seq<Out> {
    var view := ViewOf(ReviewData(item, approvalId), p.changeSet.id, p.changeSet.workspaceId, p.diff, p.diffHash);
    (if cfg.connected then [BindSent(BindMessage(view))] else []) + [DiffReview(view, !ShowsEdit(p), false)]
  }

  lemma ShownAsFound(cfg: Config, s: Agent, view: Data, same: bool)
    requires cfg.registered && same == !HasEditLine(Split(Text(view, "actual_diff")))
    ensures Reviewed(cfg, s, view, RememberApply(RememberBind(s, view, true), PendingOf(view, same)),
                     (if cfg.connected then [BindSent(BindMessage(view))] else []) + [DiffReview(view, same, false)])
  {
    hide HasEditLine, Split, BindFrom, BindMessage, PendingOf, RememberApply;
  }

  lemma NothingMissed(cfg: Config, s: Agent, drafts: seq<FileChange>, p: Proposal)
    requires cfg.host.isWorkspaceId(cfg.workspaceId) && cfg.workspaceId in s.disks
    requires var ws := s.disks[cfg.workspaceId];
             PreparedOn(cfg, ws, ws.files, ws.files, p.changeSet.id, drafts) == Ok(p)
    ensures Prepares(cfg, s, p.changeSet.id, drafts, Ok(p))
  {
    hide PreparedOn;
    var ws := s.disks[cfg.workspaceId];
    assert Sees(ws.files, ws.files);
  }

  lemma ReviewCanHappen(cfg: Config, s: Agent, item: string, approvalId: string, drafts: seq<FileChange>, p: Proposal)
    requires cfg.registered && cfg.host.isWorkspaceId(cfg.workspaceId) && cfg.workspaceId in s.disks
    requires cfg.host.isChangeSetId(p.changeSet.id) && p.changeSet.id != ""
    requires var ws := s.disks[cfg.workspaceId];
             PreparedOn(cfg, ws, ws.files, ws.files, p.changeSet.id, drafts) == Ok(p)
    ensures Reviews(cfg, s, ReviewData(item, approvalId), Some((p.changeSet.id, drafts)), "",
                    AfterReview(cfg, s, item, approvalId, p), SentByReview(cfg, item, approvalId, p))
  {
    hide Prepares, PreparedOn, Outcome, HasEditLine, Split;
    NothingMissed(cfg, s, drafts, p);
    StoredAndShown(cfg, s, item, approvalId, p);
  }

  lemma StoredAndShown(cfg: Config, s: Agent, item: string, approvalId: string, p: Proposal)
    requires cfg.registered
    ensures Outcome(cfg, s, ReviewData(item, approvalId), Ok(p),
                    AfterReview(cfg, s, item, approvalId, p), SentByReview(cfg, item, approvalId, p))
  {
    var data := ReviewData(item, approvalId);
    ViewShowsIt(data, p);
    hide HasEditLine, Split, ViewOf, RememberBind, BindMessage, PendingOf, RememberApply, ReviewData, Reviewed;
    ShownAsFound(cfg, s.(table := PutIn(s.table, p)),
                 ViewOf(data, p.changeSet.id, p.changeSet.workspaceId, p.diff, p.diffHash), !ShowsEdit(p));
  }

  lemma ReviewIsHandled(cfg: Config, s: Agent, data: Data, proposed: Drafts, t: Agent, out: seq<Out>)
    requires Reviews(cfg, s, data, proposed, "", t, out)
    ensures Handles(cfg, s, ServerEvent(ChangeProposed, "", "", data, proposed), "", t, out)
  {
    hide Reviews;
  }

  /** The state after an apply in which nothing failed. */
  function AfterApply(s: Agent, p: Proposal): Agent
    requires p.changeSet.id in s.table && p.changeSet.workspaceId in s.disks
  {
    var id, ws := p.changeSet.id, s.disks[p.changeSet.workspaceId];
    s.(pending := NOTHING, table := s.table[id := s.table[id].(applied := true, applying := false)],
       disks := s.disks[ws.id := ws.(revision := ws.revision + 1,
           files := ApplyPlan(ws.files - Staging(p.planned), p.planned))])
  }

  lemma PlanStaysInRegion(files: Files, plan: Plan)
    ensures SameOutside(files, ApplyPlan(files - Staging(plan), plan), Region(plan))
  {
  }

  /** The server reports, for whatever work item, that a change is being applied. */
  function ApplyStarted(item: string): ServerEvent { ServerEvent(Progress, item, "", APPLY_STAGE, None) }

  lemma ApplyingStage(item: string)
    ensures Text(Stamped(ApplyStarted(item)), "stage") == "APPLYING_CHANGE"
    ensures "APPLYING_CHANGE" != "COMPLETED" && "APPLYING_CHANGE" != "REJECTED"
  {
    assert "stage"[0] != "work_item_id"[0] && APPLY_STAGE["stage"] == "APPLYING_CHANGE";
    assert "APPLYING_CHANGE"[0] != "COMPLETED"[0] && "APPLYING_CHANGE"[0] != "REJECTED"[0];
  }

  /** The list of results that goes with a plan. */
  lemma PlanIsListed(host: Host, plan: Plan) returns (files: seq<FileResult>)
    ensures ListsPlan(host, plan, files)
  {
    var paths := PathsOfPlan(plan);
    files := seq(|paths|, i requires 0 <= i < |paths| =>
      match plan[paths[i]]
      case Remove => FileResult(paths[i], "", true)
      case Write(content) => FileResult(paths[i], host.hash(content), false));
    forall p | p in plan ensures exists i :: 0 <= i < |files| && files[i].path == p {
      assert p in paths;
      var i :| 0 <= i < |paths| && paths[i] == p;
      assert files[i].path == p;
    }
  }

  /** A stored proposal that is unclaimed, is revalidated by this disk, and is the one that is pending. */
  ghost predicate Applicable(cfg: Config, s: Agent, p: Proposal) {
    && cfg.registered && cfg.host.isWorkspaceId(p.changeSet.workspaceId) && cfg.host.isChangeSetId(p.changeSet.id)
    && p.changeSet.workspaceId in s.disks && s.disks[p.changeSet.workspaceId].id == p.changeSet.workspaceId
    && Claimable(s.table, p.changeSet.id) && s.table[p.changeSet.id] == p
    && Revalidates(cfg.host, s.disks[p.changeSet.workspaceId], p.(applying := true), cfg.maxBytes)
    && Complete(s.pending) && !s.pending.same && s.pending.changeSetId == p.changeSet.id
    && s.pending.workspaceId == p.changeSet.workspaceId && s.pending.diffHash == p.diffHash
  }

  lemma PlanCanBeApplied(cfg: Config, ws: Workspace, p: Proposal, r: Result<ApplyResult>)
    requires Revalidates(cfg.host, ws, p.(applying := true), cfg.maxBytes)
    requires r.Ok? && r.value.revision == ws.revision + 1 && ListsPlan(cfg.host, p.planned, r.value.files)
    ensures var now := ws.(revision := ws.revision + 1, files := ApplyPlan(ws.files - Staging(p.planned), p.planned));
            AppliesTo(cfg, ws, p, r, Faults(false, {}, false), now)
  {
    hide Revalidates, ListsPlan, ApplyPlan, Staging, Region, SameOutside, Carried;
    PlanStaysInRegion(ws.files, p.planned);
    AllCarried(p.planned);
    assert ws.(files := ws.files) == ws;
    assert Sees(ws.files, ws.files);
  }

  lemma AppliesWithoutFault(cfg: Config, s: Agent, p: Proposal) returns (r: Result<ApplyResult>)
    requires Applicable(cfg, s, p)
    ensures Applies(cfg, s.(pending := NOTHING), RequestOf(s.pending), Covers(s.pending), r, Faults(false, {}, false),
                    AfterApply(s, p))
  {
    hide Revalidates, ListsPlan, ApplyPlan, Staging, Refusal, AppliesTo;
    var ws, taken, t := s.disks[p.changeSet.workspaceId], s.(pending := NOTHING), AfterApply(s, p);
    var files := PlanIsListed(cfg.host, p.planned);
    r := Ok(ApplyResult.ApplyResult(p.changeSet.id, ws.id, ws.revision + 1, files));
    PlanCanBeApplied(cfg, ws, p, r);
    NotRefusedIff(cfg.host, taken.disks.Keys, taken.table, Covers(s.pending), RequestOf(s.pending));
    assert t.disks.Keys == taken.disks.Keys;
  }

  lemma ApplyCanHappen(cfg: Config, s: Agent, p: Proposal, item: string) returns (out: seq<Out>)
    requires Applicable(cfg, s, p)
    ensures Handles(cfg, s, ApplyStarted(item), "", AfterApply(Noticed(s, ApplyStarted(item)), p), out)
  {
    var s1 := Noticed(s, ApplyStarted(item));
    assert Applicable(cfg, s1, p);
    var r := AppliesWithoutFault(cfg, s1, p);
    hide Stamped, AfterApply, Applies, Noticed, Applicable;
    var data, t := Stamped(ApplyStarted(item)), AfterApply(s1, p);
    var workItem := if s.pending.workItemId == "" then Text(data, "work_item_id") else s.pending.workItemId;
    ApplyingStage(item);
    assert s1.pending == s.pending && !s.pending.same && s.pending.changeSetId != "" && cfg.registered by {
      StaysApplicable(cfg, s, p, item);
    }
    assert Authorizes(cfg, s1, data, t, ApplyMessages(cfg, workItem, r));
    out := [Relay(Progress, data)] + ApplyMessages(cfg, workItem, r);
    assert out[1..] == ApplyMessages(cfg, workItem, r);
  }

  lemma StaysApplicable(cfg: Config, s: Agent, p: Proposal, item: string)
    requires Applicable(cfg, s, p)
    ensures Applicable(cfg, Noticed(s, ApplyStarted(item)), p)
    ensures Noticed(s, ApplyStarted(item)).pending == s.pending && !s.pending.same && s.pending.changeSetId != ""
    ensures cfg.registered
  {
  }

  /** A registered workspace on which this proposal was made. */
  ghost predicate Proposed(cfg: Config, s: Agent, drafts: seq<FileChange>, p: Proposal) {
    && cfg.registered && cfg.host.isWorkspaceId(cfg.workspaceId) && cfg.workspaceId != ""
    && cfg.workspaceId in s.disks && s.disks[cfg.workspaceId].id == cfg.workspaceId
    && cfg.host.isChangeSetId(p.changeSet.id) && p.changeSet.id != "" && p.diffHash != ""
    && (var ws := s.disks[cfg.workspaceId]; PreparedOn(cfg, ws, ws.files, ws.files, p.changeSet.id, drafts) == Ok(p))
  }

  /** The same, with an edit that the content test sees. */
  ghost predicate Reviewable(cfg: Config, s: Agent, drafts: seq<FileChange>, p: Proposal) {
    Proposed(cfg, s, drafts, p) && ShowsEdit(p)
  }

  /** The event of a review, and the messages it sends. */
  ghost function Reviewing(cfg: Config, item: string, approvalId: string, drafts: seq<FileChange>, p: Proposal): Event {
    Server(ServerEvent(ChangeProposed, "", "", ReviewData(item, approvalId), Some((p.changeSet.id, drafts))), "",
           SentByReview(cfg, item, approvalId, p))
  }

  lemma ReviewingIsStep(cfg: Config, s: Agent, item: string, approvalId: string, drafts: seq<FileChange>, p: Proposal)
    requires Proposed(cfg, s, drafts, p)
    ensures Step(cfg, s, Reviewing(cfg, item, approvalId, drafts, p), AfterReview(cfg, s, item, approvalId, p))
  {
    hide PreparedOn, HasEditLine, Split, Reviews;
    ReviewCanHappen(cfg, s, item, approvalId, drafts, p);
    ReviewIsHandled(cfg, s, ReviewData(item, approvalId), Some((p.changeSet.id, drafts)),
                    AfterReview(cfg, s, item, approvalId, p), SentByReview(cfg, item, approvalId, p));
  }

  /** The workspace of `s` after the plan of `p` was put on its disk. */
  ghost predicate Written(cfg: Config, s: Agent, p: Proposal, t: Agent) {
    && cfg.workspaceId in s.disks && cfg.workspaceId in t.disks
    && t.disks[cfg.workspaceId].revision == s.disks[cfg.workspaceId].revision + 1
    && t.disks[cfg.workspaceId].files == ApplyPlan(s.disks[cfg.workspaceId].files - Staging(p.planned), p.planned)
  }

  /**
   A change that was reviewed is written when the server reports an apply, for whatever work item:
   for every proposal with a visible edit there is a run of two events after which its plan is on
   the disk, and the second event may be about any other work item.
   */
  lemma ReviewedChangeCanBeWritten(
    cfg: Config, s: Agent, item: string, foreign: string, approvalId: string, drafts: seq<FileChange>, p: Proposal)
    returns (states: seq<Agent>, events: seq<Event>)
    requires Reviewable(cfg, s, drafts, p)
    requires s.pending == NOTHING && TableOk(cfg.host, s.table) && approvalId != ""
    ensures Run(cfg, states, events) && |events| == 2 && states[0] == s && Written(cfg, s, p, states[2])
    ensures events[0] == Reviewing(cfg, item, approvalId, drafts, p)
    ensures events[1].Server? && events[1].ev == ApplyStarted(foreign)
  {
    hide Reviewable, Reviewing, AfterReview, Applicable, Step, TableOk, AfterApply, Written;
    FirstReview(cfg, s, item, approvalId, drafts, p);
    var t := AfterReview(cfg, s, item, approvalId, p);
    var out := ApplyCanHappen(cfg, t, p, foreign);
    AppliedIsWritten(cfg, t, p, foreign);
    var u := AfterApply(Noticed(t, ApplyStarted(foreign)), p);
    var first, second := Reviewing(cfg, item, approvalId, drafts, p), Server(ApplyStarted(foreign), "", out);
    ServerStep(cfg, t, ApplyStarted(foreign), out, u);
    WrittenSince(cfg, s, t, p, u);
    StepsAreRun(cfg, [s, t, u], [first, second]);
    return [s, t, u], [first, second];
  }

  lemma ServerStep(cfg: Config, s: Agent, ev: ServerEvent, out: seq<Out>, t: Agent)
    requires Handles(cfg, s, ev, "", t, out)
    ensures Step(cfg, s, Server(ev, "", out), t)
  {
    hide Handles;
  }

  lemma WrittenSince(cfg: Config, s: Agent, t: Agent, p: Proposal, u: Agent)
    requires Written(cfg, t, p, u) && t.disks == s.disks
    ensures Written(cfg, s, p, u)
  {
    hide ApplyPlan, Staging;
  }

  lemma AppliedIsWritten(cfg: Config, s: Agent, p: Proposal, item: string)
    requires Applicable(cfg, s, p) && p.changeSet.workspaceId == cfg.workspaceId
    ensures p.changeSet.id in s.table && p.changeSet.workspaceId in s.disks
    ensures Written(cfg, s, p, AfterApply(Noticed(s, ApplyStarted(item)), p))
  {
    hide ApplyPlan, Staging;
  }

  lemma StepsAreRun(cfg: Config, states: seq<Agent>, events: seq<Event>)
    requires |states| == |events| + 1 && |events| <= 3
    requires states[0].pending == NOTHING && TableOk(cfg.host, states[0].table)
    requires |events| > 0 ==> Step(cfg, states[0], events[0], states[1])
    requires |events| > 1 ==> Step(cfg, states[1], events[1], states[2])
    requires |events| > 2 ==> Step(cfg, states[2], events[2], states[3])
    ensures Run(cfg, states, events)
  {
    hide Step, TableOk;
  }

  /**
   A proposal shown without an approval id replaces the stored one of the same id. If both have
   the same diff text, its plan is written under the approval of the first.
   */
  lemma ReplacedPlanIsWritten(
    cfg: Config, s: Agent, item: string, approvalId: string,
    drafts: seq<FileChange>, p: Proposal, others: seq<FileChange>, q: Proposal)
    returns (states: seq<Agent>, events: seq<Event>)
    requires Reviewable(cfg, s, drafts, p) && Reviewable(cfg, s, others, q)
    requires q.changeSet.id == p.changeSet.id && q.diff == p.diff && q.diffHash == p.diffHash
    requires s.pending == NOTHING && TableOk(cfg.host, s.table) && approvalId != ""
    ensures Run(cfg, states, events) && |events| == 3 && states[0] == s && Written(cfg, s, q, states[3])
    ensures states[1].table == PutIn(s.table, p) && states[2].disks == s.disks
    ensures events[0] == Reviewing(cfg, item, approvalId, drafts, p) && events[1] == Reviewing(cfg, item, "", others, q)
    ensures events[2].Server? && events[2].ev == ApplyStarted(item)
    ensures LastReview(cfg, events[..2]) == Some(0)
  {
    hide Reviewable, Reviewing, AfterReview, Applicable, Step, TableOk, AfterApply, Written, Remembers;
    FirstReview(cfg, s, item, approvalId, drafts, p);
    var t := AfterReview(cfg, s, item, approvalId, p);
    SecondReview(cfg, s, t, item, p, others, q);
    var u := AfterReview(cfg, t, item, "", q);
    var out := ApplyCanHappen(cfg, u, q, item);
    AppliedIsWritten(cfg, u, q, item);
    var v := AfterApply(Noticed(u, ApplyStarted(item)), q);
    var first, second := Reviewing(cfg, item, approvalId, drafts, p), Reviewing(cfg, item, "", others, q);
    var third := Server(ApplyStarted(item), "", out);
    ServerStep(cfg, u, ApplyStarted(item), out, v);
    WrittenSince(cfg, s, u, q, v);
    StepsAreRun(cfg, [s, t, u, v], [first, second, third]);
    LastOfTwo(cfg, first, second);
    assert [first, second, third][..2] == [first, second];
    return [s, t, u, v], [first, second, third];
  }

  lemma LastOfTwo(cfg: Config, first: Event, second: Event)
    requires Remembers(cfg, first) && !Remembers(cfg, second)
    ensures LastReview(cfg, [first, second]) == Some(0)
  {
    hide Remembers;
    assert [first, second][..1] == [first];
  }

  /** A review with an approval id leaves its proposal stored, pending and fit to be applied. */
  lemma FirstReview(cfg: Config, s: Agent, item: string, approvalId: string, drafts: seq<FileChange>, p: Proposal)
    requires Reviewable(cfg, s, drafts, p) && approvalId != ""
    ensures var t := AfterReview(cfg, s, item, approvalId, p);
            && Step(cfg, s, Reviewing(cfg, item, approvalId, drafts, p), t)
            && Remembers(cfg, Reviewing(cfg, item, approvalId, drafts, p))
            && t.disks == s.disks && t.table == PutIn(s.table, p) && Applicable(cfg, t, p)
            && p.changeSet.workspaceId == cfg.workspaceId
            && cfg.workspaceId in s.disks && s.disks[cfg.workspaceId].id == cfg.workspaceId
  {
    hide PreparedOn, ShowsEdit, Step, Reviewing, AfterReview, Revalidates;
    ReviewingIsStep(cfg, s, item, approvalId, drafts, p);
    PreparedAgain(cfg, s, p.changeSet.id, drafts, p);
    PendingAfterReview(cfg, s, item, approvalId, p);
    RememberedOnlyWithApproval(cfg, item, approvalId, drafts, p);
  }

  /** One without is stored as well, but what is pending stays. */
  lemma SecondReview(
    cfg: Config, s: Agent, t: Agent, item: string, p: Proposal, others: seq<FileChange>, q: Proposal)
    requires Reviewable(cfg, s, others, q) && t.disks == s.disks && Applicable(cfg, t, p)
    requires q.changeSet.id == p.changeSet.id && q.diffHash == p.diffHash && p.changeSet.workspaceId == cfg.workspaceId
    ensures var u := AfterReview(cfg, t, item, "", q);
            && Step(cfg, t, Reviewing(cfg, item, "", others, q), u)
            && !Remembers(cfg, Reviewing(cfg, item, "", others, q))
            && u.pending == t.pending && u.disks == t.disks && u.table == PutIn(t.table, q) && Applicable(cfg, u, q)
            && q.changeSet.workspaceId == cfg.workspaceId
  {
    hide PreparedOn, ShowsEdit, Step, Reviewing, AfterReview, Revalidates;
    ReviewingIsStep(cfg, t, item, "", others, q);
    PreparedAgain(cfg, s, q.changeSet.id, others, q);
    UnapprovedReview(cfg, t, item, q);
    RememberedOnlyWithApproval(cfg, item, "", others, q);
  }

  lemma UnapprovedReview(cfg: Config, s: Agent, item: string, q: Proposal)
    ensures var u := AfterReview(cfg, s, item, "", q);
            u.pending == s.pending && u.disks == s.disks && u.table == PutIn(s.table, q)
  {
  }

  lemma RememberedOnlyWithApproval(cfg: Config, item: string, approvalId: string, drafts: seq<FileChange>, p: Proposal)
    requires cfg.registered && p.changeSet.id != "" && p.changeSet.workspaceId != "" && p.diffHash != ""
    ensures Remembers(cfg, Reviewing(cfg, item, approvalId, drafts, p)) <==> approvalId != ""
  {
  }

  lemma PendingAfterReview(cfg: Config, s: Agent, item: string, approvalId: string, p: Proposal)
    requires approvalId != "" && p.diffHash != "" && p.changeSet.id != "" && p.changeSet.workspaceId != ""
    ensures var t := AfterReview(cfg, s, item, approvalId, p);
            && Complete(t.pending) && t.pending.same == !ShowsEdit(p) && t.pending.changeSetId == p.changeSet.id
            && t.pending.workspaceId == p.changeSet.workspaceId && t.pending.diffHash == p.diffHash
            && t.disks == s.disks && t.table == PutIn(s.table, p)
  {
  }

  lemma PreparedAgain(cfg: Config, s: Agent, id: string, drafts: seq<FileChange>, p: Proposal)
    requires cfg.workspaceId in s.disks && s.disks[cfg.workspaceId].id == cfg.workspaceId
    requires var ws := s.disks[cfg.workspaceId]; PreparedOn(cfg, ws, ws.files, ws.files, id, drafts) == Ok(p)
    ensures p.changeSet.workspaceId == cfg.workspaceId && !p.applied && !p.applying
    ensures Revalidates(cfg.host, s.disks[cfg.workspaceId], p.(applying := true), cfg.maxBytes)
  {
    hide Fill, NoConflicts, Entries, Validate;
    var ws := s.disks[cfg.workspaceId];
    assert ws.(files := ws.files) == ws;
  }
}
