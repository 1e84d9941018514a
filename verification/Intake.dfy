/**
 Approval intake (`server/.../api/ApprovalIntake.java`): it ties the diff hash that the local
 agent computed to the decision that consumes the approval. `Store` is one committed state of the
 tables and the context entries; the functions say what each request leaves behind, and the class
 does the same on its stored fields.
 */
module Intake {
  import opened Wrappers
  import W = Workflow
  import opened WorkflowRuns
  import E = WorkflowEngine

  const DEFAULT_WORKSPACE := "ws-local"

  // ----- Requests and replies -----

  /** The string fields of a request. */
  type Data = map<string, string>

  function Trim(s: string): (t: string)
    ensures |t| <= |s|
    ensures t != "" ==> t[0] > ' ' && t[|t| - 1] > ' '
    decreases |s|
  {
    if s == "" then s
    else if s[0] <= ' ' then Trim(s[1..])
    else if s[|s| - 1] <= ' ' then Trim(s[..|s| - 1])
    else s
  }

  /** Trimming twice is trimming once, so a hash that was trimmed when stored compares equal when read. */
  lemma TrimIdempotent(s: string)
    ensures Trim(Trim(s)) == Trim(s)
  {
    var t := Trim(s);
  }

  function Text(data: Data, key: string): string { if key in data then Trim(data[key]) else "" }

  function ParseDecision(raw: string): Option<W.Decision> {
    if raw == "APPROVE" then Some(W.Approve) else if raw == "REJECT" then Some(W.Reject) else None
  }

  /** `Failed` is an exception that ends the request; nothing of it is committed. */
  datatype Reply = Accepted(workItemId: string, workflowId: string, progress: seq<W.State>) | Rejected | Failed

  // ----- What is stored -----

  datatype Bind = Bind(approvalId: string, workspaceId: string, resourceId: string, diffHash: string)

  /** The tables, and the latest context entries by work item (binds, workspaces) or reference (designs). */
  datatype Store = Store(
    db: W.Db,
    binds: map<string, Bind>,
    workspaces: map<string, string>,
    designs: map<string, string>)

  function WorkspaceOf(workspaces: map<string, string>, item: string): string {
    if item in workspaces && Trim(workspaces[item]) != "" then Trim(workspaces[item]) else DEFAULT_WORKSPACE
  }

  function BoundHash(binds: map<string, Bind>, item: string, approvalId: string, resourceId: string): Option<string> {
    if item in binds && binds[item].approvalId == approvalId && binds[item].resourceId == resourceId
       && Trim(binds[item].diffHash) != ""
    then Some(Trim(binds[item].diffHash))
    else None
  }

  // ----- Requests on a stored state -----

  function Remember(s: Store, item: string, workspace: string): Store {
    if item in s.workspaces || item !in s.db.items then s
    else s.(workspaces := s.workspaces[item := if Trim(workspace) == "" then DEFAULT_WORKSPACE else Trim(workspace)])
  }

  function BindOf(data: Data): Bind {
    Bind(Text(data, "approval_id"), Text(data, "workspace_id"), Text(data, "resource_id"), Text(data, "diff_hash"))
  }

  predicate BindComplete(data: Data) {
    && Text(data, "approval_id") != "" && Text(data, "work_item_id") != "" && Text(data, "workspace_id") != ""
    && Text(data, "resource_id") != "" && Text(data, "diff_hash") != ""
  }

  /** The request names an open code approval, of this work item and resource, as `read` shows it. */
  predicate BindMatches(read: W.Db, data: Data) {
    var id := Text(data, "approval_id");
    && id in read.approvals
    && read.approvals[id].workItemId == Text(data, "work_item_id")
    && read.approvals[id].resourceId == Text(data, "resource_id")
    && read.approvals[id].kind == W.CodeChange
    && read.approvals[id].status == W.Requested && !read.approvals[id].consumed
  }

  /** `read` is the state the approval was read from; serialised requests read the stored one. */
  function BindDiff(s: Store, read: W.Db, data: Data): (Store, Reply) {
    var item := Text(data, "work_item_id");
    if !BindComplete(data) || !BindMatches(read, data) ||
        Text(data, "workspace_id") != WorkspaceOf(s.workspaces, item) then
      (s, Rejected)
    else if item !in s.db.items then (s, Failed)
    else (s.(binds := s.binds[item := BindOf(data)]),
          Accepted(item, read.approvals[Text(data, "approval_id")].workflowId, []))
  }

  predicate DecisionComplete(data: Data) {
    && Text(data, "approval_id") != "" && Text(data, "decision") != "" && Text(data, "work_item_id") != ""
    && Text(data, "workspace_id") != "" && Text(data, "resource_id") != ""
  }

  /** A design decision names the stored design, a code decision the hash that was bound. */
  predicate Confirmed(s: Store, pending: W.Approval, data: Data, sha: string -> string) {
    match pending.kind
    case Design =>
      && pending.workflowId in s.db.rows
      && Text(data, "design_identity") == sha(if pending.resourceId in s.designs then s.designs[pending.resourceId]
          else "")
    case CodeChange =>
      BoundHash(s.binds, Text(data, "work_item_id"), Text(data, "approval_id"), Text(data, "resource_id"))
      == Some(Text(data, "diff_hash"))
  }

  function RefusalOf(e: W.Error): Reply {
    if e in {W.ResourceMismatch, W.IllegalTransition, W.ApprovalReuse, W.ApprovalExpired, W.ApprovalNotFound}
    then Rejected else Failed
  }

  /** Consumes a confirmed approval; an approved design goes on to the code approval at once. */
  function DecideConfirmed(db: W.Db, approvalId: string, decision: W.Decision, env: W.Env): (W.Db, Reply) {
    match W.Decide(db, db, db, approvalId, decision, env)
    case Err(e) => (db, RefusalOf(e))
    case Ok((db1, row)) =>
      if decision == W.Approve && row.current == W.Implementing then
        match E.Drive(db1, row, W.WaitingCodeApproval, env)
        case Err(_) => (db, Failed)
        case Ok((db2, last)) =>
          (db2, Accepted(last.workItemId, last.id,
                         [W.Implementing, W.Implementing, W.Reviewing, W.PreparingChange, last.current]))
      else (db1, Accepted(row.workItemId, row.id, [row.current]))
  }

  function Decide(s: Store, data: Data, env: W.Env, sha: string -> string): (Store, Reply) {
    var approvalId, item := Text(data, "approval_id"), Text(data, "work_item_id");
    var decision := ParseDecision(Text(data, "decision"));
    if !DecisionComplete(data) || decision == None then (s, Rejected)
    else
      match W.RequireUsable(s.db.approvals, approvalId, env.now)
      case Err(e) => (if e == W.ApprovalExpired then s.(db := W.MarkExpired(s.db, approvalId)) else s, Rejected)
      case Ok(pending) =>
        if item != pending.workItemId || Text(data, "resource_id") != pending.resourceId
           || Text(data, "workspace_id") != WorkspaceOf(s.workspaces, item) || !Confirmed(s, pending, data, sha)
        then (s, Rejected)
        else
          var (db1, reply) := DecideConfirmed(s.db, approvalId, decision.value, env);
          (s.(db := db1), reply)
  }

  ghost function WorkflowOf(rows: map<string, W.Row>, item: string): Option<string> {
    if exists id :: id in rows && rows[id].workItemId == item
    then (var id :| id in rows && rows[id].workItemId == item; Some(id))
    else None
  }

  ghost function ApplyCompleted(s: Store, data: Data, env: W.Env): (Store, Reply) {
    var item, workspace := Text(data, "work_item_id"), Text(data, "workspace_id");
    if item == "" || workspace == "" || workspace != WorkspaceOf(s.workspaces, item) then (s, Rejected)
    else
      match WorkflowOf(s.db.rows, item)
      case None => (s, Rejected)
      case Some(id) =>
        if s.db.rows[id].current == W.Completed then (s, Accepted(item, id, [W.Completed]))
        else
          match W.CompleteAfterApply(s.db, s.db, id, env)
          case Err(e) => (s, if e == W.IllegalTransition || e == W.NotFound then Rejected else Failed)
          case Ok((db1, row)) => (s.(db := db1), Accepted(row.workItemId, row.id, [row.current]))
  }

  // ----- The intake itself -----

  class ApprovalIntake {
    const db: E.Database
    const engine: E.Engine
    const sha: string -> string
    var binds: map<string, Bind>
    var workspaces: map<string, string>
    var designs: map<string, string>

    constructor (db: E.Database, engine: E.Engine, sha: string -> string)
      requires engine.Valid() && engine.db == db
      ensures Valid() && this.db == db && this.sha == sha
      ensures Stored() == Store(db.State(), map[], map[], map[])
    {
      this.db, this.engine, this.sha := db, engine, sha;
      binds, workspaces, designs := map[], map[], map[];
    }

    ghost predicate Valid() { engine.Valid() && engine.db == db }

    function Stored(): Store
      reads this, db
    {
      Store(db.State(), binds, workspaces, designs)
    }

    method RememberWorkspace(item: string, workspace: string)
      modifies this`workspaces
      ensures Stored() == Remember(old(Stored()), item, workspace)
    {
      if item in workspaces || item !in db.items {
        return;
      }
      var id := if Trim(workspace) == "" then DEFAULT_WORKSPACE else Trim(workspace);
      workspaces := workspaces[item := id];
    }

    method BindAgentDiff(data: Data) returns (reply: Reply)
      modifies this`binds
      ensures (Stored(), reply) == BindDiff(old(Stored()), old(db.State()), data)
    {
      var approvalId, item := Text(data, "approval_id"), Text(data, "work_item_id");
      var resourceId, diffHash := Text(data, "resource_id"), Text(data, "diff_hash");
      var workspaceId := Text(data, "workspace_id");
      if approvalId == "" || item == "" || workspaceId == "" || resourceId == "" || diffHash == "" {
        return Rejected;
      }
      if approvalId !in db.approvals {
        return Rejected;
      }
      var pending := db.approvals[approvalId];
      if item != pending.workItemId || resourceId != pending.resourceId || pending.kind != W.CodeChange
         || pending.status != W.Requested || pending.consumed {
        return Rejected;
      }
      if workspaceId != WorkspaceOf(workspaces, item) {
        return Rejected;
      }
      if item !in db.items {
        return Failed;
      }
      binds := binds[item := Bind(approvalId, workspaceId, resourceId, diffHash)];
      return Accepted(pending.workItemId, pending.workflowId, []);
    }

    /** Consumes what was confirmed and drives an approved design on, or leaves the tables alone. */
    method Settle(approvalId: string, decision: W.Decision, env: W.Env) returns (reply: Reply)
      requires Valid()
      modifies db
      ensures (db.State(), reply) == DecideConfirmed(old(db.State()), approvalId, decision, env)
    {
      hide W.Decide, E.Drive;
      var saved := db.State();
      var next := engine.Decide(approvalId, decision, env);
      if next.Err? {
        return RefusalOf(next.error);
      }
      var progress := [next.value.current];
      if decision == W.Approve && next.value.current == W.Implementing {
        var reviewed := engine.DriveLinearTo(next.value, W.WaitingCodeApproval, env);
        if reviewed.Err? {
          db.Rollback(saved);
          return Failed;
        }
        next := reviewed;
        progress := progress + [W.Implementing, W.Reviewing, W.PreparingChange, next.value.current];
        assert progress == [W.Implementing, W.Implementing, W.Reviewing, W.PreparingChange, next.value.current];
      }
      return Accepted(next.value.workItemId, next.value.id, progress);
    }

    method DecideApproval(data: Data, env: W.Env) returns (reply: Reply)
      requires Valid()
      modifies db
      ensures (Stored(), reply) == Decide(old(Stored()), data, env, sha)
    {
      var approvalId, item := Text(data, "approval_id"), Text(data, "work_item_id");
      var resourceId, workspaceId := Text(data, "resource_id"), Text(data, "workspace_id");
      var raw := Text(data, "decision");
      if approvalId == "" || raw == "" || item == "" || workspaceId == "" || resourceId == "" {
        return Rejected;
      }
      var decision := ParseDecision(raw);
      if decision == None {
        return Rejected;
      }
      var usable := engine.approvals.RequireUsable(approvalId, env.now);
      if usable.Err? {
        return Rejected;
      }
      var pending := usable.value;
      if item != pending.workItemId || resourceId != pending.resourceId ||
          workspaceId != WorkspaceOf(workspaces, item) {
        return Rejected;
      }
      if pending.kind == W.Design {
        var payload := if pending.resourceId in designs then designs[pending.resourceId] else "";
        if pending.workflowId !in db.rows || Text(data, "design_identity") != sha(payload) {
          return Rejected;
        }
      } else {
        var bound := BoundHash(binds, item, approvalId, resourceId);
        if bound == None || bound.value != Text(data, "diff_hash") {
          return Rejected;
        }
      }
      reply := Settle(approvalId, decision.value, env);
    }

    method CompleteApply(data: Data, env: W.Env) returns (reply: Reply)
      requires Valid() && ItemsSeparate(db.rows)
      modifies db
      ensures (Stored(), reply) == ApplyCompleted(old(Stored()), data, env)
    {
      var item, workspace := Text(data, "work_item_id"), Text(data, "workspace_id");
      if item == "" || workspace == "" || workspace != WorkspaceOf(workspaces, item) {
        return Rejected;
      }
      if id :| id in db.rows && db.rows[id].workItemId == item {
        assert WorkflowOf(db.rows, item) == Some(id);
        if db.rows[id].current == W.Completed {
          return Accepted(item, id, [W.Completed]);
        }
        var done := engine.CompleteAfterApply(id, env);
        if done.Err? {
          return if done.error == W.IllegalTransition || done.error == W.NotFound then Rejected else Failed;
        }
        return Accepted(done.value.workItemId, done.value.id, [done.value.current]);
      }
      return Rejected;
    }
  }
}
