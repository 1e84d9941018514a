/**
 The server's workflow engine as it updates its tables (`server/.../workflow/WorkflowEngine.java`,
 `server/.../approval/ApprovalService.java`, `server/.../persistence`,
 `server/.../agentruntime/AgentWorkflowLoop.java`). Each public method is one transaction: it
 leaves exactly the state that the functions of `Workflow` give, or, on an error, the state it
 found. An operation that reads and writes in one go reads its own transaction's state.
 */
module WorkflowEngine {
  import opened Wrappers
  import W = Workflow
  import opened WorkflowRuns

  /** The tables, with the conditional updates of the repositories. */
  class Database {
    var items: map<string, W.ItemStatus>
    var rows: map<string, W.Row>
    var history: map<string, seq<W.Hop>>
    var approvals: map<string, W.Approval>

    constructor ()
      ensures State() == W.EMPTY
    {
      items, rows, history, approvals := map[], map[], map[], map[];
    }

    function State(): W.Db
      reads this
    {
      W.Db(items, rows, history, approvals)
    }

    method Rollback(saved: W.Db)
      modifies this
      ensures State() == saved
    {
      items, rows, history, approvals := saved.items, saved.rows, saved.history, saved.approvals;
    }

    /** Compare-and-set on the revision: the number of rows written. */
    method UpdateState(updated: W.Row, expected: int) returns (written: nat)
      modifies this`rows
      ensures match W.UpdateState(old(State()), updated, expected)
              case Ok(s) => written == 1 && State() == s
              case Err(_) => written == 0 && State() == old(State())
    {
      if updated.id in rows && rows[updated.id].revision == expected {
        rows := rows[updated.id := updated.(workItemId := rows[updated.id].workItemId)];
        return 1;
      }
      return 0;
    }

    method InsertTransition(workflowId: string, hop: W.Hop)
      modifies this`history
      ensures State() == W.Append(old(State()), workflowId, hop)
    {
      var rest := if workflowId in history then history[workflowId] else [];
      history := history[workflowId := rest + [hop]];
    }

    /** Writes a decision to an open request only: the number of rows written. */
    method ConsumeIfRequested(id: string, decision: W.Decision) returns (written: nat)
      modifies this`approvals
      ensures match W.ConsumeIfRequested(old(State()), id, decision)
              case Ok(s) => written == 1 && State() == s
              case Err(_) => written == 0 && State() == old(State())
    {
      if id in approvals && approvals[id].status == W.Requested {
        approvals := approvals[id := approvals[id].(
          status := W.ConsumedStatus(decision), decision := Some(decision), consumed := true)];
        return 1;
      }
      return 0;
    }

    method MarkExpired(id: string)
      modifies this`approvals
      ensures State() == W.MarkExpired(old(State()), id)
    {
      if id in approvals && approvals[id].status == W.Requested {
        approvals := approvals[id := approvals[id].(status := W.Expired)];
      }
    }

    /** Takes a free or run-out lease: whether this server got it. */
    method TryAcquireLease(workflowId: string, env: W.Env) returns (got: bool)
      modifies this`rows
      ensures State() == W.TryAcquireLease(old(State()), workflowId, env)
      ensures got ==> workflowId in rows && rows[workflowId].lease == W.HeldBy(env.owner, env.leaseUntil)
      ensures !got ==> State() == old(State())
    {
      got := workflowId in rows && (rows[workflowId].lease == W.NoLease || rows[workflowId].lease.until < env.now);
      if got {
        rows := rows[workflowId := rows[workflowId].(lease := W.HeldBy(env.owner, env.leaseUntil))];
      }
    }
  }

  class ApprovalService {
    const db: Database

    constructor (db: Database)
      ensures this.db == db
    {
      this.db := db;
    }

    method Request(workItemId: string, workflowId: string, kind: W.Kind, env: W.Env) returns (r: W.Outcome<()>)
      modifies db`approvals
      ensures match W.RequestApproval(old(db.State()), workItemId, workflowId, kind, env)
              case Ok(s) => r == W.Ok(()) && db.State() == s
              case Err(e) => r == W.Err(e) && db.State() == old(db.State())
    {
      if env.newApprovalId in db.approvals || W.HasOpenRequest(db.approvals, workflowId, kind) {
        return W.Err(W.Duplicate);
      }
      db.approvals := db.approvals[env.newApprovalId :=
        W.Approval(env.newApprovalId, workItemId, workflowId, kind, W.ResourceOf(kind, workItemId),
                   W.Requested, None, false, Some(env.expiresAt))];
      return W.Ok(());
    }

    /** Refuses a request that is unknown, out of time or used; marks the one out of time. */
    method RequireUsable(id: string, now: int) returns (r: W.Outcome<W.Approval>)
      modifies db`approvals
      ensures r == W.RequireUsable(old(db.approvals), id, now)
      ensures db.State() == if r == W.Err(W.ApprovalExpired) then W.MarkExpired(old(db.State()), id)
              else old(db.State())
    {
      if id !in db.approvals {
        return W.Err(W.ApprovalNotFound);
      }
      var loaded := db.approvals[id];
      if W.PastDeadline(loaded, now) {
        db.MarkExpired(id);
        return W.Err(W.ApprovalExpired);
      }
      if loaded.status != W.Requested || loaded.consumed {
        return W.Err(W.ApprovalReuse);
      }
      return W.Ok(loaded);
    }

    /** Uses a request once; a failure leaves nothing but a mark of expiry. */
    method Consume(id: string, decision: W.Decision, now: int) returns (r: W.Outcome<()>)
      modifies db`approvals
      ensures match W.RequireUsable(old(db.approvals), id, now)
              case Err(e) => r == W.Err(e)
              case Ok(_) => r == W.Ok(()) && W.ConsumeIfRequested(old(db.State()), id, decision) == W.Ok(db.State())
    {
      var pending := RequireUsable(id, now);
      if pending.Err? {
        return W.Err(pending.error);
      }
      var written := db.ConsumeIfRequested(id, decision);
      if written != 1 {
        assert false;  // the request was open a moment ago and this transaction sees its own state
      }
      return W.Ok(());
    }
  }

  class Engine {
    const db: Database
    const approvals: ApprovalService

    constructor (db: Database, approvals: ApprovalService)
      requires approvals.db == db
      ensures this.db == db && this.approvals == approvals
    {
      this.db := db;
      this.approvals := approvals;
    }

    ghost predicate Valid() { approvals.db == db }

    /** Part of a transaction: on an error the caller rolls back. */
    method ApplyTransition(
      current: W.Row, to: W.State, trigger: W.Trigger, triggerId: Option<string>, env: W.Env)
      returns (r: W.Outcome<W.Row>)
      requires Valid()
      modifies db
      ensures match W.ApplyTransition(old(db.State()), current, to, trigger, triggerId, env)
              case Err(e) => r == W.Err(e)
              case Ok((s, row)) => r == W.Ok(row) && db.State() == s
    {
      if !W.Allows(Some(current.current), to) {
        return W.Err(W.IllegalTransition);
      }
      var updated := W.UpdatedRow(current, to, env);
      var written := db.UpdateState(updated, current.revision);
      if written != 1 {
        return W.Err(W.ConcurrentModification);
      }
      db.InsertTransition(current.id, W.Hop(Some(current.current), to, trigger, triggerId));
      if to.IsWaiting() {
        var requested := approvals.Request(
          updated.workItemId, updated.id, if to == W.WaitingDesignApproval then W.Design else W.CodeChange, env);
        if requested.Err? {
          return W.Err(requested.error);
        }
      }
      return W.Ok(updated);
    }

    method Receive(workflowId: string, workItemId: string, env: W.Env) returns (r: W.Outcome<W.Row>)
      modifies db
      ensures match W.Receive(old(db.State()), workflowId, workItemId, env)
              case Err(e) => r == W.Err(e) && db.State() == old(db.State())
              case Ok((s, row)) => r == W.Ok(row) && db.State() == s
    {
      if workItemId in db.items || workflowId in db.rows {
        return W.Err(W.Duplicate);
      }
      var created := W.Row(workflowId, workItemId, W.Received, None, None, 0, W.Running,
          W.HeldBy(env.owner, env.leaseUntil));
      db.items := db.items[workItemId := W.Open];
      db.rows := db.rows[workflowId := created];
      db.InsertTransition(workflowId, W.Hop(None, W.Received, W.System, None));
      return W.Ok(created);
    }

    method Transition(workflowId: string, to: W.State, env: W.Env) returns (r: W.Outcome<W.Row>)
      requires Valid()
      modifies db
      ensures match W.Transition(old(db.State()), old(db.State()), workflowId, to, env)
              case Err(e) => r == W.Err(e) && db.State() == old(db.State())
              case Ok((s, row)) => r == W.Ok(row) && db.State() == s
    {
      var saved := db.State();
      if workflowId !in db.rows {
        return W.Err(W.NotFound);
      }
      var current := db.rows[workflowId];
      if current.current.IsWaiting() {
        return W.Err(W.IllegalTransition);
      }
      r := ApplyTransition(current, to, W.Engine, None, env);
      if r.Err? {
        db.Rollback(saved);
      }
    }

    static method TargetAfterDecision(current: W.Row, pending: W.Approval, decision: W.Decision)
      returns (r: W.Outcome<W.State>)
      ensures r == W.TargetAfterDecision(current, pending, decision)
    {
      if pending.kind == W.Design {
        if current.current != W.WaitingDesignApproval || W.DesignResource(current.workItemId) != pending.resourceId {
          return W.Err(W.ResourceMismatch);
        }
        return W.Ok(if decision == W.Approve then W.Implementing else W.Rejected);
      }
      if current.current != W.WaitingCodeApproval || W.ChangeSetResource(current.workItemId) != pending.resourceId {
        return W.Err(W.ResourceMismatch);
      }
      return W.Ok(if decision == W.Approve then W.ApplyingChange else W.Rejected);
    }

    /** Consumes the approval and moves the workflow, or does neither. */
    method Decide(approvalId: string, decision: W.Decision, env: W.Env) returns (r: W.Outcome<W.Row>)
      requires Valid()
      modifies db
      ensures var s0 := old(db.State());
              match W.Decide(s0, s0, s0, approvalId, decision, env)
              case Err(e) => r == W.Err(e) && db.State() == s0
              case Ok((s, row)) => r == W.Ok(row) && db.State() == s
    {
      var saved := db.State();
      var pending := approvals.RequireUsable(approvalId, env.now);
      if pending.Err? {
        db.Rollback(saved);
        return W.Err(pending.error);
      }
      if pending.value.workflowId !in db.rows {
        return W.Err(W.NotFound);
      }
      var current := db.rows[pending.value.workflowId];
      var target := TargetAfterDecision(current, pending.value, decision);
      if target.Err? {
        return W.Err(target.error);
      }
      var used := approvals.Consume(approvalId, decision, env.now);
      if used.Err? {
        assert false;  // the same request was usable a moment ago, by the same clock
      }
      r := ApplyTransition(current, target.value, W.UserDecision, Some(approvalId), env);
      if r.Err? {
        db.Rollback(saved);
      }
    }

    method CompleteAfterApply(workflowId: string, env: W.Env) returns (r: W.Outcome<W.Row>)
      requires Valid()
      modifies db
      ensures match W.CompleteAfterApply(old(db.State()), old(db.State()), workflowId, env)
              case Err(e) => r == W.Err(e) && db.State() == old(db.State())
              case Ok((s, row)) => r == W.Ok(row) && db.State() == s
    {
      var saved := db.State();
      if workflowId !in db.rows {
        return W.Err(W.NotFound);
      }
      var current := db.rows[workflowId];
      if current.current != W.ApplyingChange {
        return W.Err(W.IllegalTransition);
      }
      r := ApplyTransition(current, W.Completed, W.System, None, env);
      if r.Err? {
        db.Rollback(saved);
        return;
      }
      db.items := db.items[current.workItemId := W.ItemCompleted];
    }

    /** Drives a workflow along the linear path until `stopAt`, inside the caller's transaction. */
    method DriveLinearTo(current: W.Row, stopAt: W.State, env: W.Env) returns (r: W.Outcome<W.Row>)
      requires Valid()
      modifies db
      ensures match Drive(old(db.State()), current, stopAt, env)
              case Err(e) => r == W.Err(e)
              case Ok((s, row)) => r == W.Ok(row) && db.State() == s
    {
      var cursor := current;
      while cursor.current != stopAt
        invariant Drive(db.State(), cursor, stopAt, env) == Drive(old(db.State()), current, stopAt, env)
        decreases 12 - cursor.current.Rank()
      {
        var next := W.NextLinear(cursor.current);
        if next == None {
          return W.Err(W.IllegalTransition);
        }
        var moved := Transition(cursor.id, next.value, env);
        if moved.Err? {
          return W.Err(moved.error);
        }
        cursor := moved.value;
      }
      return W.Ok(cursor);
    }

    /** Receives a request and drives it to the first approval, or leaves no trace. */
    method ReceiveAndDriveToWaitingDesignApproval(workflowId: string, workItemId: string, env: W.Env)
      returns (r: W.Outcome<W.Row>)
      requires Valid() && DbOk(db.State())
      requires env.newApprovalId !in db.approvals
      modifies db
      ensures DbOk(db.State())
      ensures r.Err? ==> db.State() == old(db.State())
      ensures r.Ok? <==> workItemId !in old(db.items) && workflowId !in old(db.rows)
      ensures r.Ok? ==> AtGate(db.State(), workflowId, W.Design, env.newApprovalId)
    {
      var saved := db.State();
      ReceiveKeeps(saved, workflowId, workItemId, env);
      r := Receive(workflowId, workItemId, env);
      if r.Err? {
        return;
      }
      DriveReachesGate(db.State(), r.value, W.Design, env);
      r := DriveLinearTo(r.value, W.WaitingDesignApproval, env);
    }

    /** Drives an approved design to the code approval, or leaves no trace. */
    method DriveToWaitingCodeApproval(workflowId: string, env: W.Env) returns (r: W.Outcome<W.Row>)
      requires Valid() && DbOk(db.State())
      requires env.newApprovalId !in db.approvals
      modifies db
      ensures DbOk(db.State())
      ensures r.Err? ==> db.State() == old(db.State())
      ensures r.Ok? <==> workflowId in old(db.rows) && old(db.rows)[workflowId].current == W.Implementing
      ensures r.Ok? ==> AtGate(db.State(), workflowId, W.CodeChange, env.newApprovalId)
    {
      if workflowId !in db.rows {
        return W.Err(W.NotFound);
      }
      var current := db.rows[workflowId];
      if current.current != W.Implementing {
        return W.Err(W.IllegalTransition);
      }
      DriveReachesGate(db.State(), current, W.CodeChange, env);
      r := DriveLinearTo(current, W.WaitingCodeApproval, env);
    }
  }

  /** The linear path from `row` to `stopAt` as one function. */
  function Drive(s: W.Db, row: W.Row, stopAt: W.State, env: W.Env): W.Outcome<(W.Db, W.Row)>
    decreases 12 - row.current.Rank()
  {
    if row.current == stopAt then W.Ok((s, row))
    else
      match W.NextLinear(row.current)
      case None => W.Err(W.IllegalTransition)
      case Some(next) =>
        match W.Transition(s, s, row.id, next, env)
        case Err(e) => W.Err(e)
        case Ok((s1, row1)) =>
          Drive(s1, row1, stopAt, env)
  }

  /** The workflow waits, its request is open under the given id, and its revision is the gate's rank. */
  ghost predicate AtGate(s: W.Db, id: string, kind: W.Kind, approvalId: string) {
    && id in s.rows && s.rows[id].current == W.WaitingFor(kind) && s.rows[id].revision == OpenedAt(kind)
    && approvalId in s.approvals && s.approvals[approvalId].workflowId == id
    && s.approvals[approvalId].kind == kind && s.approvals[approvalId].status == W.Requested
  }

  /** On the linear path before the gate of this kind. */
  ghost predicate BeforeGate(state: W.State, kind: W.Kind) {
    if kind == W.Design then state.Rank() < 4 else 5 <= state.Rank() < 8
  }

  /** A request can be opened for the next gate: none of its kind is there yet. */
  lemma NextGateIsFree(s: W.Db, row: W.Row)
    requires DbOk(s) && row.id in s.rows && s.rows[row.id] == row
    requires W.NextLinear(row.current).Some? && W.NextLinear(row.current).value.IsWaiting()
    ensures var kind := if W.NextLinear(row.current).value == W.WaitingDesignApproval then W.Design else W.CodeChange;
            !W.HasOpenRequest(s.approvals, row.id, kind) && row.revision + 1 == OpenedAt(kind)
  {
    CurrentRank(row, s.history[row.id], row.id);
    var waiting := W.NextLinear(row.current).value;
    NoneOpenedYet(s, row.id, if waiting == W.WaitingDesignApproval then W.Design else W.CodeChange);
  }

  /** One linear step succeeds, and either is the gate or stays before it. */
  lemma LinearStep(s: W.Db, row: W.Row, kind: W.Kind, env: W.Env)
    requires DbOk(s) && row.id in s.rows && s.rows[row.id] == row && BeforeGate(row.current, kind)
    requires env.newApprovalId !in s.approvals
    ensures var next := W.NextLinear(row.current);
            && next.Some? && W.Transition(s, s, row.id, next.value, env).Ok?
            && var (s1, row1) := W.Transition(s, s, row.id, next.value, env).value;
               && row1.id == row.id && row1.id in s1.rows && s1.rows[row1.id] == row1 && row1.current == next.value
               && (row1.current == W.WaitingFor(kind) ||
                   (BeforeGate(row1.current, kind) && s1.approvals == s.approvals))
               && (row1.current == W.WaitingFor(kind) ==> AtGate(s1, row.id, kind, env.newApprovalId))
  {
    hide DbOk;
    if W.NextLinear(row.current).value.IsWaiting() {
      NextGateIsFree(s, row);
    }
  }

  /** The drive loop always reaches the next gate. */
  lemma {:induction false} DriveReachesGate(s: W.Db, row: W.Row, kind: W.Kind, env: W.Env)
    requires DbOk(s) && row.id in s.rows && s.rows[row.id] == row && BeforeGate(row.current, kind)
    requires env.newApprovalId !in s.approvals
    ensures var r := Drive(s, row, W.WaitingFor(kind), env);
            r.Ok? && DbOk(r.value.0) && AtGate(r.value.0, row.id, kind, env.newApprovalId)
    decreases 12 - row.current.Rank()
  {
    hide DbOk, Extends, W.Transition, W.ApplyTransition, W.Allows;
    LinearStep(s, row, kind, env);
    var next := W.NextLinear(row.current).value;
    ExtendsSelf(s);
    TransitionKeeps(s, s, row.id, next, env);
    var (s1, row1) := W.Transition(s, s, row.id, next, env).value;
    if next != W.WaitingFor(kind) {
      DriveReachesGate(s1, row1, kind, env);
    }
  }
}
