/**
 When the intake accepts a request, spelled out on consistent stores, what it does then, and what
 stays for good: the design that was shown, and the workspace of a work item.
 */
module IntakeLaws {
  import opened Wrappers
  import W = Workflow
  import opened WorkflowRuns
  import WorkflowLaws
  import E = WorkflowEngine
  import opened Intake
  import opened IntakeRuns

  // ----- Decisions on designs -----

  /** The agent loop of the server decides on this approval itself. */
  predicate DecidesDirectly(e: Event, a: string) {
    e.ServerStep? && e.step.op.DoDecide? && e.step.op.approvalId == a
  }

  lemma StepConsumes(db: W.Db, step: Step, a: string)
    requires Perform([], db, step).Ok? && !IsConsumed(db, a) && IsConsumed(Perform([], db, step).value, a)
    ensures step.op.DoDecide? && step.op.approvalId == a
  {
    hide W.ApplyTransition;
    match step.op
    case DoTransition(wf, to, _) =>
      TransitionOnlyOpens(db, db.rows[wf], to, W.Engine, None, step.env);
    case DoDecide(id, decision, _, _) =>
      DecideSettles(db, id, decision, step.env);
    case DoComplete(wf, _) =>
      TransitionOnlyOpens(db, db.rows[wf], W.Completed, W.System, None, step.env);
    case _ =>
  }

  lemma CompleteConsumes(s: Store, data: Data, env: W.Env, a: string)
    requires IsConsumed(ApplyCompleted(s, data, env).0.db, a)
    ensures IsConsumed(s.db, a)
  {
    hide W.ApplyTransition;
    var id := WorkflowOf(s.db.rows, Text(data, "work_item_id"));
    if id != None && W.CompleteAfterApply(s.db, s.db, id.value, env).Ok? {
      TransitionOnlyOpens(s.db, s.db.rows[id.value], W.Completed, W.System, None, env);
    }
  }

  lemma ConsumedBy(s: Store, e: Event, sha: string -> string, a: string)
    requires !IsConsumed(s.db, a) && IsConsumed(Next(s, e, sha).db, a)
    ensures DecidesShown(s, e, sha, a) || DecidesUnder(s, e, a) || DecidesDirectly(e, a)
    ensures a in s.db.approvals && s.db.approvals[a].kind == Next(s, e, sha).db.approvals[a].kind
  {
    hide Decide, ApplyCompleted, Perform, BindMatches;
    match e
    case DecideApproval(data, env) =>
      DecisionConsumes(s, data, env, sha, a);
    case CompleteApply(data, env) =>
      CompleteConsumes(s, data, env, a);
    case ServerStep(step) =>
      if !DecidesCode(s.db, step) && Perform([], s.db, step).Ok? {
        StepConsumes(s.db, step, a);
        StepKeepsKind(s.db, step, a);
      }
    case _ =>
  }

  lemma StepKeepsKind(db: W.Db, step: Step, a: string)
    requires Perform([], db, step).Ok? && step.op.DoDecide?
    ensures step.op.approvalId in db.approvals
    ensures a in db.approvals ==>
              && a in Perform([], db, step).value.approvals
              && Perform([], db, step).value.approvals[a].kind == db.approvals[a].kind
  {
    hide W.ApplyTransition;
    DecideSettles(db, step.op.approvalId, step.op.decision, step.env);
  }

  lemma KindStays(s: Store, e: Event, sha: string -> string, a: string)
    requires DbOk(s.db) && a in s.db.approvals
    ensures a in Next(s, e, sha).db.approvals && Next(s, e, sha).db.approvals[a].kind == s.db.approvals[a].kind
  {
    EventKeepsTables(s, e, sha);
    hide Next;
  }

  lemma UnderIsCode(s: Store, e: Event, a: string)
    ensures DecidesUnder(s, e, a) ==> a in s.db.approvals && s.db.approvals[a].kind == W.CodeChange
  {
  }

  /**
   In every run a consumed design approval was decided by the agent loop of the server, or by a
   request that was addressed to it and repeated the identity of the design stored then.
   */
  lemma {:induction false} ConsumedAsShown(events: seq<Event>, sha: string -> string, a: string) returns (j: nat)
    requires IsConsumed(After(events, sha).db, a) && After(events, sha).db.approvals[a].kind == W.Design
    ensures j < |events|
    ensures DecidesDirectly(events[j], a) || DecidesShown(After(events[..j], sha), events[j], sha, a)
  {
    hide DecidesOn, DesignAt;
    var before := events[..|events| - 1];
    var e, s := events[|events| - 1], After(before, sha);
    RunKeepsTables(before, sha);
    if IsConsumed(s.db, a) {
      KindStays(s, e, sha, a);
      j := ConsumedAsShown(before, sha, a);
      assert before[..j] == events[..j];
      hide Next;
    } else {
      j := |events| - 1;
      ConsumedBy(s, e, sha, a);
      UnderIsCode(s, e, a);
      hide Next;
    }
  }

  // ----- When a decision is accepted -----

  /** A request that waits to be decided: its workflow is at the gate. */
  lemma OpenAtGate(db: W.Db, a: string)
    requires DbOk(db) && a in db.approvals && db.approvals[a].status == W.Requested
    ensures var ap := db.approvals[a];
            && !ap.consumed && ap.workflowId in db.rows && ap.workflowId in db.history
            && db.rows[ap.workflowId].current == W.WaitingFor(ap.kind)
            && db.rows[ap.workflowId].id == ap.workflowId
            && db.rows[ap.workflowId].workItemId == ap.workItemId
            && ap.resourceId == W.ResourceOf(ap.kind, ap.workItemId)
  {
    hide W.Allows, OpenedOk, OnePerKind;
    var ap := db.approvals[a];
    var h := db.history[ap.workflowId];
    assert ApprovalMatches(ap, a, db.rows[ap.workflowId].workItemId, h);
    WorkflowLaws.RowIsEnd(db, ap.workflowId);
    PathRanks(h, OpenedAt(ap.kind));
    StateAtRank(h[OpenedAt(ap.kind)].to);
  }

  /** The engine takes a decision on an open request that is in time, and moves the workflow. */
  lemma EngineDecides(db: W.Db, a: string, decision: W.Decision, env: W.Env)
    requires DbOk(db) && a in db.approvals && db.approvals[a].status == W.Requested && OnTime(db.approvals[a], env.now)
    ensures W.Decide(db, db, db, a, decision, env).Ok?
    ensures var (after, row) := W.Decide(db, db, db, a, decision, env).value;
            && row.current == TargetOf(db.approvals[a].kind, decision) && row.id == db.approvals[a].workflowId
            && row.workItemId == db.approvals[a].workItemId
            && row.id in after.rows && after.rows[row.id] == row
            && after.approvals == db.approvals[a := Decided(db.approvals[a], decision)]
  {
    hide DbOk, W.UpdatedRow;
    OpenAtGate(db, a);
    var current, db1 := db.rows[db.approvals[a].workflowId], W.ConsumeIfRequested(db, a, decision).value;
    assert W.TargetAfterDecision(current, db.approvals[a], decision) == W.Ok(TargetOf(db.approvals[a].kind, decision));
    PlainTransition(db1, current, TargetOf(db.approvals[a].kind, decision), W.UserDecision, Some(a), env);
  }

  lemma PlainTransition(db: W.Db, row: W.Row, to: W.State, trigger: W.Trigger, triggerId: Option<string>, env: W.Env)
    requires row.id in db.rows && db.rows[row.id] == row && W.Allows(Some(row.current), to) && !to.IsWaiting()
    ensures W.ApplyTransition(db, row, to, trigger, triggerId, env).Ok?
    ensures var (after, moved) := W.ApplyTransition(db, row, to, trigger, triggerId, env).value;
            && moved.current == to && moved.id == row.id && moved.workItemId == row.workItemId
            && row.id in after.rows && after.rows[row.id] == moved && after.approvals == db.approvals
  {
  }

  /** Where a decided workflow ends up: an approved design goes on to the code approval at once. */
  function Destination(kind: W.Kind, decision: W.Decision): W.State {
    if decision == W.Reject then W.Rejected
    else if kind == W.Design then W.WaitingCodeApproval else W.ApplyingChange
  }

  /** The tables after a decision on an open request. */
  ghost predicate Settled(db: W.Db, a: string, decision: W.Decision, env: W.Env, after: W.Db)
    requires a in db.approvals
  {
    var ap := db.approvals[a];
    && a in after.approvals && after.approvals[a] == Decided(ap, decision)
    && ap.workflowId in after.rows && after.rows[ap.workflowId].current == Destination(ap.kind, decision)
    && (Destination(ap.kind, decision) == W.WaitingCodeApproval ==>
          E.AtGate(after, ap.workflowId, W.CodeChange, env.newApprovalId))
  }

  lemma ConfirmedIsSettled(db: W.Db, a: string, decision: W.Decision, env: W.Env)
    requires DbOk(db) && a in db.approvals && db.approvals[a].status == W.Requested && OnTime(db.approvals[a], env.now)
    requires env.newApprovalId !in db.approvals
    ensures var (after, reply) := DecideConfirmed(db, a, decision, env);
            && Settled(db, a, decision, env, after)
            && reply.Accepted? && reply.workflowId == db.approvals[a].workflowId
            && reply.workItemId == db.approvals[a].workItemId
            && reply.progress != []
            && reply.progress[|reply.progress| - 1] == Destination(db.approvals[a].kind, decision)
  {
    hide DbOk;
    EngineDecides(db, a, decision, env);
    if decision == W.Approve && db.approvals[a].kind == W.Design {
      DesignGoesOn(db, a, env);
    }
    hide W.Decide, E.Drive, E.AtGate;
  }

  lemma DesignGoesOn(db: W.Db, a: string, env: W.Env)
    requires DbOk(db) && a in db.approvals && db.approvals[a].status == W.Requested && OnTime(db.approvals[a], env.now)
    requires env.newApprovalId !in db.approvals && db.approvals[a].kind == W.Design
    ensures W.Decide(db, db, db, a, W.Approve, env).Ok?
    ensures var (db1, row) := W.Decide(db, db, db, a, W.Approve, env).value;
            && row.current == W.Implementing && E.Drive(db1, row, W.WaitingCodeApproval, env).Ok?
            && var (db2, last) := E.Drive(db1, row, W.WaitingCodeApproval, env).value;
               && E.AtGate(db2, row.id, W.CodeChange, env.newApprovalId) && last.current == W.WaitingCodeApproval
               && last.id == db.approvals[a].workflowId && last.workItemId == db.approvals[a].workItemId
               && a in db2.approvals && db2.approvals[a] == Decided(db.approvals[a], W.Approve)
  {
    hide DbOk, W.Decide, E.Drive, E.AtGate, Extends, E.BeforeGate, W.NextLinear;
    ExtendsSelf(db);
    EngineDecides(db, a, W.Approve, env);
    DecideKeeps(db, db, db, a, W.Approve, env);
    ImplementingIsBefore();
    var (db1, row) := W.Decide(db, db, db, a, W.Approve, env).value;
    E.DriveReachesGate(db1, row, W.CodeChange, env);
    DriveOnlyOpens(db1, row, W.WaitingCodeApproval, env);
    DriveEnds(db1, row, W.WaitingCodeApproval, env);
  }

  lemma ImplementingIsBefore()
    ensures E.BeforeGate(W.Implementing, W.CodeChange)
  {
  }

  lemma {:induction false} DriveEnds(db: W.Db, row: W.Row, stopAt: W.State, env: W.Env)
    requires E.Drive(db, row, stopAt, env).Ok? && row.id in db.rows && db.rows[row.id] == row
    ensures var last := E.Drive(db, row, stopAt, env).value.1;
            last.current == stopAt && last.id == row.id && last.workItemId == row.workItemId
    decreases 12 - row.current.Rank()
  {
    if row.current != stopAt {
      var next := W.NextLinear(row.current).value;
      MovesOn(db, row, next, env);
      var (db1, row1) := W.Transition(db, db, row.id, next, env).value;
      hide W.Transition;
      DriveEnds(db1, row1, stopAt, env);
    }
  }

  lemma MovesOn(db: W.Db, row: W.Row, next: W.State, env: W.Env)
    requires row.id in db.rows && db.rows[row.id] == row && W.Transition(db, db, row.id, next, env).Ok?
    ensures var (db1, row1) := W.Transition(db, db, row.id, next, env).value;
            && row1.id == row.id && row1.workItemId == row.workItemId
            && row1.id in db1.rows && db1.rows[row1.id] == row1
  {
  }

  /** What a decision has to repeat of what was shown: the design, or the hash bound to the approval. */
  ghost predicate RepeatsShown(s: Store, data: Data, sha: string -> string, a: string)
    requires a in s.db.approvals
  {
    var ap := s.db.approvals[a];
    if ap.kind == W.Design then Text(data, "design_identity") == sha(DesignAt(s, ap.resourceId))
    else BoundHash(s.binds, ap.workItemId, a, ap.resourceId) == Some(Text(data, "diff_hash"))
  }

  /** The decision names all it has to, is addressed to an open request in time, and repeats what was shown. */
  ghost predicate DecisionHolds(s: Store, data: Data, env: W.Env, sha: string -> string) {
    var a := Text(data, "approval_id");
    && a != "" && Text(data, "work_item_id") != "" && Text(data, "workspace_id") != ""
    && Text(data, "resource_id") != ""
    && (Text(data, "decision") == "APPROVE" || Text(data, "decision") == "REJECT")
    && Addresses(s, data, a) && s.db.approvals[a].status == W.Requested && OnTime(s.db.approvals[a], env.now)
    && RepeatsShown(s, data, sha, a)
  }

  function Asked(data: Data): W.Decision { if Text(data, "decision") == "APPROVE" then W.Approve else W.Reject }

  lemma UsableIff(db: W.Db, a: string, now: int)
    requires DbOk(db)
    ensures var r := W.RequireUsable(db.approvals, a, now);
            && (r.Ok? <==> a in db.approvals && db.approvals[a].status == W.Requested && OnTime(db.approvals[a], now))
            && (r.Ok? ==> r.value == db.approvals[a])
            && (r == W.Err(W.ApprovalExpired) <==> a in db.approvals && !OnTime(db.approvals[a], now))
  {
    hide DbOk;
    if a in db.approvals && db.approvals[a].status == W.Requested {
      OpenIsUnused(db, a);
    }
  }

  lemma ConfirmedIff(s: Store, data: Data, sha: string -> string, a: string)
    requires DbOk(s.db) && Addresses(s, data, a) && s.db.approvals[a].status == W.Requested
    ensures Confirmed(s, s.db.approvals[a], data, sha) <==> RepeatsShown(s, data, sha, a)
  {
    hide DbOk, Text, BoundHash, WorkspaceOf;
    OpenAtGate(s.db, a);
  }

  lemma DecisionIsChecked(s: Store, data: Data, env: W.Env, sha: string -> string)
    requires DbOk(s.db) && DecisionHolds(s, data, env, sha)
    ensures var (db, reply) := DecideConfirmed(s.db, Text(data, "approval_id"), Asked(data), env);
            Decide(s, data, env, sha) == (s.(db := db), reply)
  {
    hide DbOk, DecideConfirmed, Text, WorkspaceOf, W.RequireUsable, Confirmed, RepeatsShown;
    UsableIff(s.db, Text(data, "approval_id"), env.now);
    ConfirmedIff(s, data, sha, Text(data, "approval_id"));
    assert "APPROVE"[0] != "REJECT"[0];
  }

  /** What is refused before the engine is asked leaves everything, but for a mark of expiry. */
  lemma OtherwiseRefused(s: Store, data: Data, env: W.Env, sha: string -> string)
    requires DbOk(s.db) && !DecisionHolds(s, data, env, sha)
    ensures var a, (t, reply) := Text(data, "approval_id"), Decide(s, data, env, sha);
            && reply == Rejected
            && (t == s || (a in s.db.approvals && !OnTime(s.db.approvals[a], env.now)
                           && t == s.(db := W.MarkExpired(s.db, a))))
  {
    hide DbOk, DecideConfirmed, Text, WorkspaceOf, W.MarkExpired, W.RequireUsable, Confirmed, RepeatsShown, OnTime;
    var a := Text(data, "approval_id");
    UsableIff(s.db, a, env.now);
    if a in s.db.approvals && s.db.approvals[a].status == W.Requested && Addresses(s, data, a) {
      ConfirmedIff(s, data, sha, a);
    }
    assert "APPROVE"[0] != "REJECT"[0];
  }

  /** The exact condition under which a decision is accepted, and what it does then and otherwise. */
  lemma DecisionAcceptedIff(s: Store, data: Data, env: W.Env, sha: string -> string)
    requires DbOk(s.db) && env.newApprovalId !in s.db.approvals
    ensures var a, (t, reply) := Text(data, "approval_id"), Decide(s, data, env, sha);
            && (reply.Accepted? <==> DecisionHolds(s, data, env, sha))
            && t == s.(db := t.db)
            && (reply.Accepted? ==>
                  && a in s.db.approvals && Settled(s.db, a, Asked(data), env, t.db)
                  && reply.workflowId == s.db.approvals[a].workflowId && reply.progress != []
                  && reply.progress[|reply.progress| - 1] == Destination(s.db.approvals[a].kind, Asked(data)))
            && (!reply.Accepted? ==>
                  reply == Rejected
                  && (t == s || (a in s.db.approvals && !OnTime(s.db.approvals[a], env.now)
                                 && t == s.(db := W.MarkExpired(s.db, a)))))
  {
    hide DbOk, DecideConfirmed, Decide, Settled, Text, WorkspaceOf, RepeatsShown, W.MarkExpired;
    if DecisionHolds(s, data, env, sha) {
      DecisionIsChecked(s, data, env, sha);
      ConfirmedIsSettled(s.db, Text(data, "approval_id"), Asked(data), env);
    } else {
      OtherwiseRefused(s, data, env, sha);
    }
  }

  // ----- When a bind is accepted -----

  /** The exact condition under which a serialised bind is accepted; it then binds the hash. */
  lemma BindAcceptedIff(s: Store, data: Data)
    requires DbOk(s.db)
    ensures var a, (t, reply) := Text(data, "approval_id"), BindDiff(s, s.db, data);
            && (reply.Accepted? <==>
                  && Addresses(s, data, a) && s.db.approvals[a].kind == W.CodeChange
                  && s.db.approvals[a].status == W.Requested
                  && a != "" && Text(data, "work_item_id") != "" && Text(data, "workspace_id") != ""
                  && Text(data, "resource_id") != "" && Text(data, "diff_hash") != "")
            && t == s.(binds := t.binds)
            && (reply.Accepted? ==>
                  && BindingOf(t, s.db.approvals[a].workItemId)
                     == Some(Bind(a, Text(data, "workspace_id"), Text(data, "resource_id"), Text(data, "diff_hash")))
                  && BoundHash(t.binds, s.db.approvals[a].workItemId, a, s.db.approvals[a].resourceId)
                     == Some(Text(data, "diff_hash"))
                  && (forall b, ref :: b != a || ref != s.db.approvals[a].resourceId ==>
                        BoundHash(t.binds, s.db.approvals[a].workItemId, b, ref) == None)
                  && forall item :: item != s.db.approvals[a].workItemId ==> BindingOf(t, item) == BindingOf(s, item))
            && (!reply.Accepted? ==> reply == Rejected && t == s)
  {
    hide DbOk, Trim;
    var a := Text(data, "approval_id");
    TrimIdempotent(if "diff_hash" in data then data["diff_hash"] else "");
    if a in s.db.approvals {
      ItemKnown(s.db, a);
      if s.db.approvals[a].status == W.Requested {
        OpenIsUnused(s.db, a);
      }
    }
  }

  // ----- When a completion is accepted -----

  lemma RowIdIs(db: W.Db, id: string)
    requires DbOk(db) && id in db.rows
    ensures db.rows[id].id == id && db.rows[id].workItemId in db.items
  {
  }

  lemma OneWorkflowPerItem(db: W.Db, item: string, id: string)
    requires DbOk(db) && id in db.rows && db.rows[id].workItemId == item
    ensures WorkflowOf(db.rows, item) == Some(id)
  {
  }

  /** The exact condition under which a reported apply is accepted; the workflow is completed then. */
  lemma CompletionAcceptedIff(s: Store, data: Data, env: W.Env, id: string)
    requires DbOk(s.db) && id in s.db.rows && s.db.rows[id].workItemId == Text(data, "work_item_id")
    ensures var item, (t, reply) := Text(data, "work_item_id"), ApplyCompleted(s, data, env);
            && (reply.Accepted? <==>
                  && item != "" && Text(data, "workspace_id") != ""
                  && Text(data, "workspace_id") == WorkspaceOf(s.workspaces, item)
                  && (s.db.rows[id].current == W.ApplyingChange || s.db.rows[id].current == W.Completed))
            && (reply.Accepted? ==>
                  && reply == Accepted(item, id, [W.Completed])
                  && id in t.db.rows && t.db.rows[id].current == W.Completed
                  && (s.db.rows[id].current == W.ApplyingChange ==>
                        item in t.db.items && t.db.items[item] == W.ItemCompleted))
            && (!reply.Accepted? || s.db.rows[id].current == W.Completed ==> t == s)
            && (!reply.Accepted? ==> reply == Rejected)
  {
    RowIdIs(s.db, id);
    OneWorkflowPerItem(s.db, Text(data, "work_item_id"), id);
    hide DbOk, WorkflowOf, W.ApplyTransition, Text;
    if s.db.rows[id].current == W.ApplyingChange {
      PlainTransition(s.db, s.db.rows[id], W.Completed, W.System, None, env);
    }
  }

  /** A report about a work item without a workflow is refused. */
  lemma UnknownItemIsRefused(s: Store, data: Data, env: W.Env)
    requires forall id :: id in s.db.rows ==> s.db.rows[id].workItemId != Text(data, "work_item_id")
    ensures ApplyCompleted(s, data, env) == (s, Rejected)
  {
  }

  // ----- The workspace of a work item -----

  /** A workspace is remembered exactly when a known work item has none yet. */
  lemma NewlyRemembered(s: Store, e: Event, sha: string -> string, item: string)
    requires item !in s.workspaces
    ensures var t := Next(s, e, sha).workspaces;
            && (item in t <==> e.RememberWorkspace? && e.item == item && item in s.db.items)
            && (item in t ==>
                  WorkspaceOf(t, item) == if Trim(e.workspace) == "" then "ws-local" else Trim(e.workspace))
            && (item !in t ==> WorkspaceOf(t, item) == "ws-local")
  {
    hide Decide, ApplyCompleted, Perform, BindMatches, Trim;
    WorkspacesMove(s, e, sha);
    if e.RememberWorkspace? {
      TrimIdempotent(e.workspace);
      DefaultIsTrimmed();
    }
  }

  lemma DefaultIsTrimmed()
    ensures Trim("ws-local") == "ws-local" != ""
  {
  }

  lemma WorkspacesMove(s: Store, e: Event, sha: string -> string)
    ensures !e.RememberWorkspace? ==> Next(s, e, sha).workspaces == s.workspaces
  {
    hide DecideConfirmed, Perform, W.CompleteAfterApply;
  }

  /** The first workspace of a work item stays. */
  lemma {:induction false} WorkspaceIsFinal(events: seq<Event>, sha: string -> string, j: nat, item: string)
    requires j <= |events| && item in After(events[..j], sha).workspaces
    ensures item in After(events, sha).workspaces
    ensures WorkspaceOf(After(events, sha).workspaces, item) == WorkspaceOf(After(events[..j], sha).workspaces, item)
    ensures After(events, sha).workspaces[item] == After(events[..j], sha).workspaces[item]
  {
    if j == |events| {
      assert events[..j] == events;
    } else {
      var before := events[..|events| - 1];
      assert before[..j] == events[..j];
      WorkspaceIsFinal(before, sha, j, item);
      WorkspacesMove(After(before, sha), events[|events| - 1], sha);
    }
  }
}
