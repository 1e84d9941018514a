/**
 Runs of the server with serialised intake requests. A code approval is consumed only by a
 decision that repeats the hash last bound to it, and from then on that binding stays as it is,
 through the apply and the completion.
 */
module IntakeRuns {
  import opened Wrappers
  import W = Workflow
  import opened WorkflowRuns
  import WorkflowLaws
  import E = WorkflowEngine
  import opened Intake

  /** `ServerStep` is any other engine operation; of the decisions it may only be one on a design. */
  datatype Event =
    | RememberWorkspace(item: string, workspace: string)
    | BindAgentDiff(data: Data)
    | DecideApproval(data: Data, env: W.Env)
    | CompleteApply(data: Data, env: W.Env)
    | WriteDesign(ref: string, payload: string)
    | ServerStep(step: Step)

  predicate DecidesCode(db: W.Db, step: Step) {
    step.op.DoDecide? && step.op.approvalId in db.approvals && db.approvals[step.op.approvalId].kind == W.CodeChange
  }

  ghost function Next(s: Store, e: Event, sha: string -> string): Store {
    match e
    case RememberWorkspace(item, workspace) => Remember(s, item, workspace)
    case BindAgentDiff(data) => BindDiff(s, s.db, data).0
    case DecideApproval(data, env) => Decide(s, data, env, sha).0
    case CompleteApply(data, env) => ApplyCompleted(s, data, env).0
    case WriteDesign(ref, payload) => s.(designs := s.designs[ref := payload])
    case ServerStep(step) =>
      if DecidesCode(s.db, step) then s
      else
        match Perform([], s.db, step)
        case Err(_) => s
        case Ok(db) => s.(db := db)
  }

  const NOTHING := Store(W.EMPTY, map[], map[], map[])

  ghost function After(events: seq<Event>, sha: string -> string): Store {
    if events == [] then NOTHING
    else Next(After(events[..|events| - 1], sha), events[|events| - 1], sha)
  }

  // ----- What one event keeps -----

  ghost predicate CodeConsumed(db: W.Db, a: string) {
    a in db.approvals && db.approvals[a].kind == W.CodeChange && db.approvals[a].consumed
  }

  lemma DriveKeeps(s: W.Db, row: W.Row, stopAt: W.State, env: W.Env)
    requires DbOk(s) && E.Drive(s, row, stopAt, env).Ok?
    ensures DbOk(E.Drive(s, row, stopAt, env).value.0) && Extends(s, E.Drive(s, row, stopAt, env).value.0)
    decreases 12 - row.current.Rank()
  {
    hide DbOk, Extends, W.Transition;
    ExtendsSelf(s);
    if row.current != stopAt {
      var next := W.NextLinear(row.current).value;
      TransitionKeeps(s, s, row.id, next, env);
      var (s1, row1) := W.Transition(s, s, row.id, next, env).value;
      DriveKeeps(s1, row1, stopAt, env);
      ExtendsChain(s, s1, E.Drive(s, row, stopAt, env).value.0);
    }
  }

  lemma ConfirmedKeeps(db: W.Db, a: string, decision: W.Decision, env: W.Env)
    requires DbOk(db)
    ensures DbOk(DecideConfirmed(db, a, decision, env).0) && Extends(db, DecideConfirmed(db, a, decision, env).0)
  {
    hide DbOk, Extends, W.Decide, E.Drive;
    ExtendsSelf(db);
    DecideKeeps(db, db, db, a, decision, env);
    if W.Decide(db, db, db, a, decision, env).Ok? {
      var (db1, row) := W.Decide(db, db, db, a, decision, env).value;
      if decision == W.Approve && row.current == W.Implementing && E.Drive(db1, row, W.WaitingCodeApproval, env).Ok? {
        DriveKeeps(db1, row, W.WaitingCodeApproval, env);
        ExtendsChain(db, db1, E.Drive(db1, row, W.WaitingCodeApproval, env).value.0);
      }
    }
  }

  lemma EventKeepsTables(s: Store, e: Event, sha: string -> string)
    requires DbOk(s.db)
    ensures DbOk(Next(s, e, sha).db) && Extends(s.db, Next(s, e, sha).db)
  {
    hide DbOk, Extends, W.CompleteAfterApply, DecideConfirmed, Perform, W.MarkExpired, Confirmed;
    ExtendsSelf(s.db);
    match e
    case DecideApproval(data, env) =>
      ExpireKeeps(s.db, Text(data, "approval_id"));
      var decision := ParseDecision(Text(data, "decision"));
      if decision != None {
        ConfirmedKeeps(s.db, Text(data, "approval_id"), decision.value, env);
      }
    case CompleteApply(data, env) =>
      var id := WorkflowOf(s.db.rows, Text(data, "work_item_id"));
      if id != None {
        CompleteKeeps(s.db, s.db, id.value, env);
      }
    case ServerStep(step) =>
      if Perform([], s.db, step).Ok? {
        PerformKeeps([], s.db, step);
      }
    case _ =>
  }

  // ----- Which events consume a code approval -----

  /** The approvals of `x` stay as they are; the others of `y` are new and open. */
  ghost predicate OnlyOpens(x: map<string, W.Approval>, y: map<string, W.Approval>) {
    && (forall a :: a in x ==> a in y && y[a] == x[a])
    && (forall a :: a in y && a !in x ==> !y[a].consumed)
  }

  lemma TransitionOnlyOpens(db: W.Db, current: W.Row, to: W.State, trigger: W.Trigger, id: Option<string>, env: W.Env)
    requires W.ApplyTransition(db, current, to, trigger, id, env).Ok?
    ensures OnlyOpens(db.approvals, W.ApplyTransition(db, current, to, trigger, id, env).value.0.approvals)
  {
  }

  lemma DriveOnlyOpens(db: W.Db, row: W.Row, stopAt: W.State, env: W.Env)
    requires E.Drive(db, row, stopAt, env).Ok?
    ensures OnlyOpens(db.approvals, E.Drive(db, row, stopAt, env).value.0.approvals)
    decreases 12 - row.current.Rank()
  {
    hide W.ApplyTransition;
    if row.current != stopAt {
      var next := W.NextLinear(row.current).value;
      var (db1, row1) := W.Transition(db, db, row.id, next, env).value;
      TransitionOnlyOpens(db, db.rows[row.id], next, W.Engine, None, env);
      DriveOnlyOpens(db1, row1, stopAt, env);
    }
  }

  lemma DecideSettles(db: W.Db, a: string, decision: W.Decision, env: W.Env)
    requires W.Decide(db, db, db, a, decision, env).Ok?
    ensures a in db.approvals
    ensures OnlyOpens(db.approvals[a := Decided(db.approvals[a], decision)],
                      W.Decide(db, db, db, a, decision, env).value.0.approvals)
  {
    hide W.ApplyTransition;
    var db1 := W.ConsumeIfRequested(db, a, decision).value;
    var current := db.rows[db.approvals[a].workflowId];
    var target := W.TargetAfterDecision(current, db.approvals[a], decision).value;
    TransitionOnlyOpens(db1, current, target, W.UserDecision, Some(a), env);
  }

  lemma ConfirmedSettles(db: W.Db, a: string, decision: W.Decision, env: W.Env)
    ensures var after := DecideConfirmed(db, a, decision, env).0;
            after == db
            || (a in db.approvals && OnlyOpens(db.approvals[a := Decided(db.approvals[a], decision)], after.approvals))
  {
    hide W.Decide, E.Drive;
    if W.Decide(db, db, db, a, decision, env).Ok? {
      var (db1, row) := W.Decide(db, db, db, a, decision, env).value;
      DecideSettles(db, a, decision, env);
      if decision == W.Approve && row.current == W.Implementing && E.Drive(db1, row, W.WaitingCodeApproval, env).Ok? {
        DriveOnlyOpens(db1, row, W.WaitingCodeApproval, env);
      }
    }
  }

  lemma StepConsumesNoCode(db: W.Db, step: Step, a: string)
    requires !DecidesCode(db, step) && Perform([], db, step).Ok? && CodeConsumed(Perform([], db, step).value, a)
    ensures CodeConsumed(db, a)
  {
    hide W.ApplyTransition;
    match step.op
    case DoTransition(wf, to, _) =>
      TransitionOnlyOpens(db, db.rows[wf], to, W.Engine, None, step.env);
    case DoDecide(id, decision, _, _) =>
      DecideSettles(db, id, decision, step.env);
    case DoComplete(wf, _) =>
      TransitionOnlyOpens(db, db.rows[wf], W.Completed, W.System, None, step.env);
    case _ =>
  }

  predicate OnTime(ap: W.Approval, now: int) { ap.expiresAt.Some? ==> now < ap.expiresAt.value }

  /** The request names this approval, its work item and resource, and the workspace of the work item. */
  ghost predicate Addresses(s: Store, data: Data, a: string) {
    && Text(data, "approval_id") == a && a in s.db.approvals
    && Text(data, "work_item_id") == s.db.approvals[a].workItemId
    && Text(data, "resource_id") == s.db.approvals[a].resourceId
    && Text(data, "workspace_id") == WorkspaceOf(s.workspaces, s.db.approvals[a].workItemId)
  }

  /** The decision is addressed to this approval, which is open and in time. */
  ghost predicate DecidesOn(s: Store, e: Event, a: string) {
    && e.DecideApproval? && Addresses(s, e.data, a)
    && s.db.approvals[a].status == W.Requested && !s.db.approvals[a].consumed
    && OnTime(s.db.approvals[a], e.env.now)
  }

  /** The design stored under a reference; there may be none. */
  function DesignAt(s: Store, ref: string): string { if ref in s.designs then s.designs[ref] else "" }

  /** It decides on a design and repeats the identity of the design that is stored. */
  ghost predicate DecidesShown(s: Store, e: Event, sha: string -> string, a: string) {
    && DecidesOn(s, e, a) && s.db.approvals[a].kind == W.Design
    && Text(e.data, "design_identity") == sha(DesignAt(s, s.db.approvals[a].resourceId))
  }

  /** It decides on a code change and repeats the hash that is bound to the approval. */
  ghost predicate DecidesUnder(s: Store, e: Event, a: string) {
    && DecidesOn(s, e, a) && s.db.approvals[a].kind == W.CodeChange
    && BoundHash(s.binds, s.db.approvals[a].workItemId, a, s.db.approvals[a].resourceId) ==
        Some(Text(e.data, "diff_hash"))
  }

  /** The decision that was recorded for this approval is the one the event asks for. */
  ghost predicate RecordedAs(db: W.Db, e: Event, a: string) {
    e.DecideApproval? && a in db.approvals && db.approvals[a].decision == ParseDecision(Text(e.data, "decision"))
  }

  /** The state has this approval, decided. */
  ghost predicate IsConsumed(db: W.Db, a: string) { a in db.approvals && db.approvals[a].consumed }

  lemma DecisionConsumes(s: Store, data: Data, env: W.Env, sha: string -> string, a: string)
    requires !IsConsumed(s.db, a) && IsConsumed(Decide(s, data, env, sha).0.db, a)
    ensures var e := DecideApproval(data, env); DecidesShown(s, e, sha, a) || DecidesUnder(s, e, a)
    ensures var t := Decide(s, data, env, sha).0;
            && RecordedAs(t.db, DecideApproval(data, env), a) && t.binds == s.binds
            && t.db.approvals[a].workItemId == s.db.approvals[a].workItemId
            && t.db.approvals[a].resourceId == s.db.approvals[a].resourceId
            && t.db.approvals[a].kind == s.db.approvals[a].kind
  {
    hide DecideConfirmed;
    var decision := ParseDecision(Text(data, "decision"));
    if decision != None {
      ConfirmedSettles(s.db, Text(data, "approval_id"), decision.value, env);
    }
  }

  /**
   A decision that consumes a design approval is addressed to it and repeats the identity of the
   design that is stored under its resource then.
*/
  lemma DesignNewlyConsumed(s: Store, data: Data, env: W.Env, sha: string -> string, a: string)
    requires a in s.db.approvals && s.db.approvals[a].kind == W.Design && !s.db.approvals[a].consumed
    requires IsConsumed(Next(s, DecideApproval(data, env), sha).db, a)
    ensures Text(data, "design_identity") == sha(DesignAt(s, s.db.approvals[a].resourceId))
    ensures DecidesOn(s, DecideApproval(data, env), a)
    ensures RecordedAs(Next(s, DecideApproval(data, env), sha).db, DecideApproval(data, env), a)
  {
    hide Decide;
    DecisionConsumes(s, data, env, sha, a);
  }

  lemma ConfirmedKeepsKind(db: W.Db, id: string, decision: W.Decision, env: W.Env, a: string)
    requires a in db.approvals
    ensures var t := DecideConfirmed(db, id, decision, env).0;
            a in t.approvals && t.approvals[a].kind == db.approvals[a].kind
  {
    ConfirmedSettles(db, id, decision, env);
    hide DecideConfirmed;
  }

  lemma CodeStays(s: Store, data: Data, env: W.Env, sha: string -> string, a: string)
    requires a in s.db.approvals
    ensures var t := Decide(s, data, env, sha).0;
            a in t.db.approvals && t.db.approvals[a].kind == s.db.approvals[a].kind
  {
    hide DecideConfirmed, Confirmed, DecisionComplete, Text, WorkspaceOf, W.RequireUsable;
    var decision := ParseDecision(Text(data, "decision"));
    if decision != None {
      ConfirmedKeepsKind(s.db, Text(data, "approval_id"), decision.value, env, a);
    }
  }

  /** A code approval is consumed only by a decision under the hash that is bound to it. */
  lemma NewlyConsumed(s: Store, e: Event, sha: string -> string, a: string)
    requires !CodeConsumed(s.db, a) && CodeConsumed(Next(s, e, sha).db, a)
    ensures DecidesUnder(s, e, a) && RecordedAs(Next(s, e, sha).db, e, a)
    ensures Next(s, e, sha).binds == s.binds
    ensures Next(s, e, sha).db.approvals[a].workItemId == s.db.approvals[a].workItemId
    ensures Next(s, e, sha).db.approvals[a].resourceId == s.db.approvals[a].resourceId
  {
    hide Decide, ApplyCompleted, Perform, BindMatches;
    match e
    case DecideApproval(data, env) =>
      if a in s.db.approvals {
        CodeStays(s, data, env, sha, a);
      }
      DecisionConsumes(s, data, env, sha, a);
    case CompleteApply(data, env) =>
      CompleteConsumesNothing(s, data, env, a);
    case ServerStep(step) =>
      if !DecidesCode(s.db, step) && Perform([], s.db, step).Ok? {
        StepConsumesNoCode(s.db, step, a);
      }
    case _ =>
  }

  lemma CompleteConsumesNothing(s: Store, data: Data, env: W.Env, a: string)
    requires CodeConsumed(ApplyCompleted(s, data, env).0.db, a)
    ensures CodeConsumed(s.db, a)
  {
    hide W.ApplyTransition;
    var id := WorkflowOf(s.db.rows, Text(data, "work_item_id"));
    if id != None && W.CompleteAfterApply(s.db, s.db, id.value, env).Ok? {
      TransitionOnlyOpens(s.db, s.db.rows[id.value], W.Completed, W.System, None, env);
    }
  }

  /** The binding of a work item. */
  function BindingOf(s: Store, item: string): Option<Bind> { if item in s.binds then Some(s.binds[item]) else None }

  /** A code approval of this work item is unique, so nothing can be bound once it is consumed. */
  lemma BindingStays(s: Store, e: Event, sha: string -> string, a: string)
    requires DbOk(s.db) && CodeConsumed(s.db, a)
    ensures CodeConsumed(Next(s, e, sha).db, a) && Next(s, e, sha).db.approvals[a] == s.db.approvals[a]
    ensures BindingOf(Next(s, e, sha), s.db.approvals[a].workItemId) == BindingOf(s, s.db.approvals[a].workItemId)
  {
    EventKeepsTables(s, e, sha);
    WorkflowLaws.DecidedStays(s.db, Next(s, e, sha).db, a);
    if e.BindAgentDiff? && BindMatches(s.db, e.data) {
      NothingLeftToBind(s.db, e.data, a);
    }
    BindingMovesOnlyByBind(s, e, sha, s.db.approvals[a].workItemId);
  }

  lemma NothingLeftToBind(db: W.Db, data: Data, a: string)
    requires DbOk(db) && CodeConsumed(db, a) && BindMatches(db, data)
    ensures Text(data, "work_item_id") != db.approvals[a].workItemId
  {
    hide DbOk;
    if Text(data, "work_item_id") == db.approvals[a].workItemId {
      OneCodeApprovalPerItem(db, a, Text(data, "approval_id"));
    }
  }

  lemma OneCodeApprovalPerItem(db: W.Db, a: string, b: string)
    requires DbOk(db) && a in db.approvals && b in db.approvals
    requires db.approvals[a].workItemId == db.approvals[b].workItemId && db.approvals[a].kind == db.approvals[b].kind
    ensures a == b
  {
    hide W.Allows;
    assert ApprovalMatches(db.approvals[a], a, db.rows[db.approvals[a].workflowId].workItemId,
        db.history[db.approvals[a].workflowId]);
    assert ApprovalMatches(db.approvals[b], b, db.rows[db.approvals[b].workflowId].workItemId,
        db.history[db.approvals[b].workflowId]);
  }

  lemma BindingMovesOnlyByBind(s: Store, e: Event, sha: string -> string, item: string)
    ensures BindingOf(Next(s, e, sha), item)
            == if e.BindAgentDiff? && Text(e.data, "work_item_id") == item && BindDiff(s, s.db, e.data).1.Accepted?
               then Some(BindOf(e.data)) else BindingOf(s, item)
  {
    hide DecideConfirmed, Perform, W.CompleteAfterApply;
  }

  // ----- Runs -----

  lemma {:induction false} RunKeepsTables(events: seq<Event>, sha: string -> string)
    ensures DbOk(After(events, sha).db)
  {
    if events != [] {
      RunKeepsTables(events[..|events| - 1], sha);
      EventKeepsTables(After(events[..|events| - 1], sha), events[|events| - 1], sha);
    }
  }

  /** The binding that the last accepted bind request for this work item asked for. */
  ghost function LastBound(events: seq<Event>, sha: string -> string, item: string): Option<Bind> {
    if events == [] then None
    else
      var s, e := After(events[..|events| - 1], sha), events[|events| - 1];
      if e.BindAgentDiff? && Text(e.data, "work_item_id") == item && BindDiff(s, s.db, e.data).1.Accepted?
      then Some(BindOf(e.data))
      else LastBound(events[..|events| - 1], sha, item)
  }

  /** No other request touches a binding. */
  lemma {:induction false} StoredIsLastBound(events: seq<Event>, sha: string -> string, item: string)
    ensures BindingOf(After(events, sha), item) == LastBound(events, sha, item)
  {
    if events != [] {
      StoredIsLastBound(events[..|events| - 1], sha, item);
      BindingMovesOnlyByBind(After(events[..|events| - 1], sha), events[|events| - 1], sha, item);
    }
  }

  /** Once a code approval is consumed, its work item's binding never changes. */
  lemma {:induction false} BindingIsFinal(events: seq<Event>, sha: string -> string, j: nat, a: string)
    requires j <= |events| && CodeConsumed(After(events[..j], sha).db, a)
    ensures CodeConsumed(After(events, sha).db, a)
    ensures var was := After(events[..j], sha);
            && After(events, sha).db.approvals[a] == was.db.approvals[a]
            && BindingOf(After(events, sha), was.db.approvals[a].workItemId) ==
                BindingOf(was, was.db.approvals[a].workItemId)
  {
    if j == |events| {
      assert events[..j] == events;
    } else {
      var before := events[..|events| - 1];
      assert before[..j] == events[..j];
      BindingIsFinal(before, sha, j, a);
      RunKeepsTables(before, sha);
      BindingStays(After(before, sha), events[|events| - 1], sha, a);
    }
  }

  /** A consumed code approval was decided under the hash that was bound to it then, and still is. */
  lemma {:induction false} ConsumedUnderBoundHash(events: seq<Event>, sha: string -> string, a: string) returns (j: nat)
    requires CodeConsumed(After(events, sha).db, a)
    ensures j < |events| && DecidesUnder(After(events[..j], sha), events[j], a)
    ensures RecordedAs(After(events, sha).db, events[j], a)
    ensures var now := After(events, sha);
            BoundHash(now.binds, now.db.approvals[a].workItemId, a, now.db.approvals[a].resourceId)
            == Some(Text(events[j].data, "diff_hash"))
  {
    hide DecidesOn;
    var before := events[..|events| - 1];
    var e, s := events[|events| - 1], After(before, sha);
    if CodeConsumed(s.db, a) {
      j := ConsumedUnderBoundHash(before, sha, a);
      assert before[..j] == events[..j];
      RunKeepsTables(before, sha);
      BindingStays(s, e, sha, a);
      hide Next;
    } else {
      j := |events| - 1;
      NewlyConsumed(s, e, sha, a);
      hide Next;
    }
  }

  lemma GateOfApply(db: W.Db, id: string) returns (a: string)
    requires DbOk(db) && id in db.rows &&
             (db.rows[id].current == W.ApplyingChange || db.rows[id].current == W.Completed)
    ensures CodeConsumed(db, a) && db.approvals[a].workflowId == id && db.approvals[a].decision == Some(W.Approve)
  {
    hide DbOk;
    WorkflowLaws.GatesPassed(db, id);
    assert WorkflowLaws.Approved(db, id, W.CodeChange);
    a :| a in db.approvals && db.approvals[a].workflowId == id && db.approvals[a].kind == W.CodeChange
         && db.approvals[a].consumed && db.approvals[a].decision == Some(W.Approve);
  }

  /** While a change is applied and after it is completed, the binding is the hash that was approved. */
  lemma AppliesTheApprovedHash(events: seq<Event>, sha: string -> string, id: string) returns (a: string, j: nat)
    requires var db := After(events, sha).db;
             id in db.rows && (db.rows[id].current == W.ApplyingChange || db.rows[id].current == W.Completed)
    ensures var now := After(events, sha);
            && a in now.db.approvals && now.db.approvals[a].workflowId == id && now.db.approvals[a].kind == W.CodeChange
            && j < |events| && DecidesUnder(After(events[..j], sha), events[j], a)
            && Text(events[j].data, "decision") == "APPROVE"
            && BoundHash(now.binds, now.db.approvals[a].workItemId, a, now.db.approvals[a].resourceId)
               == Some(Text(events[j].data, "diff_hash"))
  {
    hide Next, After, DbOk, DecidesUnder, BoundHash;
    RunKeepsTables(events, sha);
    a := GateOfApply(After(events, sha).db, id);
    j := ConsumedUnderBoundHash(events, sha, a);
  }

  lemma {:induction false} RunExtends(events: seq<Event>, sha: string -> string, j: nat)
    requires j <= |events|
    ensures Extends(After(events[..j], sha).db, After(events, sha).db)
  {
    if j == |events| {
      assert events[..j] == events;
      ExtendsSelf(After(events, sha).db);
    } else {
      var before := events[..|events| - 1];
      assert before[..j] == events[..j];
      RunExtends(before, sha, j);
      RunKeepsTables(before, sha);
      EventKeepsTables(After(before, sha), events[|events| - 1], sha);
      ExtendsChain(After(events[..j], sha).db, After(before, sha).db, After(events, sha).db);
    }
  }

  /** A complete bind request for this approval, with its work item, resource and workspace. */
  ghost predicate BindsFor(s: Store, a: string, data: Data) {
    && BindComplete(data) && Text(data, "approval_id") == a && a in s.db.approvals
    && Text(data, "work_item_id") == s.db.approvals[a].workItemId
    && Text(data, "resource_id") == s.db.approvals[a].resourceId
    && Text(data, "workspace_id") == WorkspaceOf(s.workspaces, Text(data, "work_item_id"))
  }

  /**
   What serialisation is for: after the decision a bind request is still accepted exactly when it
   read the approval in an earlier state in which the request was open, and then it replaces the
   approved hash.
   */
  lemma LateBindIff(events: seq<Event>, sha: string -> string, j: nat, a: string, late: Data)
    requires j <= |events| && CodeConsumed(After(events, sha).db, a) && BindsFor(After(events, sha), a, late)
    ensures var t, read := After(events, sha), After(events[..j], sha).db;
            && (BindDiff(t, read, late).1.Accepted? <==> a in read.approvals && read.approvals[a].status == W.Requested)
            && (BindDiff(t, read, late).1.Accepted? ==>
                  BoundHash(BindDiff(t, read, late).0.binds, Text(late, "work_item_id"), a, Text(late, "resource_id"))
                  == Some(Text(late, "diff_hash")))
  {
    hide After, DbOk, Extends, BindDiff, BoundHash, BindsFor, CodeConsumed;
    RunExtends(events, sha, j);
    RunKeepsTables(events, sha);
    RunKeepsTables(events[..j], sha);
    LateBindOn(After(events, sha), After(events[..j], sha).db, a, late);
  }

  lemma LateBindOn(t: Store, read: W.Db, a: string, late: Data)
    requires DbOk(t.db) && DbOk(read) && Extends(read, t.db) && CodeConsumed(t.db, a) && BindsFor(t, a, late)
    ensures BindDiff(t, read, late).1.Accepted? <==> a in read.approvals && read.approvals[a].status == W.Requested
    ensures BindDiff(t, read, late).1.Accepted? ==>
              BoundHash(BindDiff(t, read, late).0.binds, Text(late, "work_item_id"), a, Text(late, "resource_id"))
              == Some(Text(late, "diff_hash"))
  {
    hide DbOk, Extends, Trim;
    ItemKnown(t.db, a);
    SameApproval(read, t.db, a);
    if a in read.approvals && read.approvals[a].status == W.Requested {
      OpenIsUnused(read, a);
    }
    TrimIdempotent(if "diff_hash" in late then late["diff_hash"] else "");
  }

  lemma SameApproval(read: W.Db, db: W.Db, a: string)
    requires Extends(read, db)
    ensures a in read.approvals ==>
              && a in db.approvals
              && read.approvals[a].workItemId == db.approvals[a].workItemId
              && read.approvals[a].resourceId == db.approvals[a].resourceId
              && read.approvals[a].kind == db.approvals[a].kind
  {
  }

  lemma ItemKnown(db: W.Db, a: string)
    requires DbOk(db) && a in db.approvals
    ensures db.approvals[a].workItemId in db.items
  {
    hide W.Allows;
    assert ApprovalMatches(db.approvals[a], a, db.rows[db.approvals[a].workflowId].workItemId,
                           db.history[db.approvals[a].workflowId]);
  }

  lemma OpenIsUnused(db: W.Db, a: string)
    requires DbOk(db) && a in db.approvals && db.approvals[a].status == W.Requested
    ensures !db.approvals[a].consumed
  {
    hide W.Allows;
    assert ApprovalMatches(db.approvals[a], a, db.rows[db.approvals[a].workflowId].workItemId,
                           db.history[db.approvals[a].workflowId]);
  }
}
