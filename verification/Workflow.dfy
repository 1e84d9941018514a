/**
 The workflow and approval engine of the server (`server/.../workflow`, `server/.../approval`,
 `server/.../persistence`). A `Db` is one committed state of its tables. The functions are the
 atomic effects of the engine's operations; what an operation has read may come from an older
 state, so the rows it read are parameters.
 */
module Workflow {
  import opened Wrappers

  // ----- States and allowed transitions -----

  datatype State =
    | Received | Classifying | DiscoveringContext | Designing | WaitingDesignApproval
    | Implementing | Reviewing | PreparingChange | WaitingCodeApproval
    | ApplyingChange | Completed | Rejected
  {
    predicate IsWaiting() { WaitingDesignApproval? || WaitingCodeApproval? }
    predicate IsTerminal() { Completed? || Rejected? }

    /** Position in the enumeration. */
    function Rank(): nat {
      match this
      case Received => 0
      case Classifying => 1
      case DiscoveringContext => 2
      case Designing => 3
      case WaitingDesignApproval => 4
      case Implementing => 5
      case Reviewing => 6
      case PreparingChange => 7
      case WaitingCodeApproval => 8
      case ApplyingChange => 9
      case Completed => 10
      case Rejected => 11
    }
  }

  function Allowed(from: State): set<State> {
    match from
    case Received => {Classifying}
    case Classifying => {DiscoveringContext}
    case DiscoveringContext => {Designing}
    case Designing => {WaitingDesignApproval}
    case WaitingDesignApproval => {Implementing, Rejected}
    case Implementing => {Reviewing}
    case Reviewing => {PreparingChange}
    case PreparingChange => {WaitingCodeApproval}
    case WaitingCodeApproval => {ApplyingChange, Rejected}
    case ApplyingChange => {Completed}
    case Completed => {}
    case Rejected => {}
  }

  predicate Allows(from: Option<State>, to: State) {
    match from
    case None => to == Received
    case Some(state) => to in Allowed(state)
  }

  /** The next state of the path that needs no agent and no decision. */
  function NextLinear(from: State): (next: Option<State>)
    ensures next.Some? ==> Allows(Some(from), next.value) && next.value.Rank() == from.Rank() + 1
    ensures next == None <==> from.IsWaiting() || from.IsTerminal() || from == ApplyingChange
  {
    if from.IsWaiting() || from.IsTerminal() || from == ApplyingChange then None
    else
      match from
      case Received => Some(Classifying)
      case Classifying => Some(DiscoveringContext)
      case DiscoveringContext => Some(Designing)
      case Designing => Some(WaitingDesignApproval)
      case Implementing => Some(Reviewing)
      case Reviewing => Some(PreparingChange)
      case PreparingChange => Some(WaitingCodeApproval)
  }

  // ----- Rows -----

  datatype Status = Running | Waiting | Done | Failed

  function StatusOf(s: State): Status {
    if s == Completed then Done
    else if s == Rejected then Failed
    else if s.IsWaiting() then Waiting
    else Running
  }

  datatype Lease = NoLease | HeldBy(owner: string, until: int)

  datatype Row = Row(
    id: string,
    workItemId: string,
    current: State,
    previous: Option<State>,
    resume: Option<State>,
    revision: int,
    status: Status,
    lease: Lease)

  datatype Trigger = Engine | System | UserDecision

  /** One row of the transition history. */
  datatype Hop = Hop(from: Option<State>, to: State, trigger: Trigger, triggerId: Option<string>)

  datatype Kind = Design | CodeChange

  datatype Decision = Approve | Reject

  datatype ApprovalStatus = Requested | Consumed | RejectedByUser | Expired

  datatype Approval = Approval(
    id: string,
    workItemId: string,
    workflowId: string,
    kind: Kind,
    resourceId: string,
    status: ApprovalStatus,
    decision: Option<Decision>,
    consumed: bool,
    expiresAt: Option<int>)

  datatype ItemStatus = Open | ItemCompleted

  /** The tables: work items, workflows, their histories in insertion order, and approvals. */
  datatype Db = Db(
    items: map<string, ItemStatus>,
    rows: map<string, Row>,
    history: map<string, seq<Hop>>,
    approvals: map<string, Approval>)

  const EMPTY := Db(map[], map[], map[], map[])

  datatype Error =
    | NotFound | IllegalTransition | ConcurrentModification | ApprovalNotFound | ApprovalExpired
    | ApprovalReuse | ResourceMismatch | Duplicate

  datatype Outcome<+T> = Ok(value: T) | Err(error: Error)

  /** What one operation takes from its server: clock, lease settings, and a new approval id. */
  datatype Env = Env(now: int, owner: string, leaseUntil: int, expiresAt: int, newApprovalId: string)

  function DesignResource(workItemId: string): string { "ctx://work-items/" + workItemId + "/design/latest" }

  function ChangeSetResource(workItemId: string): string { "cs://work-items/" + workItemId + "/latest" }

  function ResourceOf(kind: Kind, workItemId: string): string {
    if kind == Design then DesignResource(workItemId) else ChangeSetResource(workItemId)
  }

  function WaitingFor(kind: Kind): State { if kind == Design then WaitingDesignApproval else WaitingCodeApproval }

  // ----- Approvals -----

  /** The partial unique index on open requests per workflow and kind. */
  predicate HasOpenRequest(approvals: map<string, Approval>, workflowId: string, kind: Kind) {
    exists id :: id in approvals && approvals[id].workflowId == workflowId && approvals[id].kind == kind
                 && approvals[id].status == Requested
  }

  function RequestApproval(db: Db, workItemId: string, workflowId: string, kind: Kind, env: Env): Outcome<Db> {
    if env.newApprovalId in db.approvals || HasOpenRequest(db.approvals, workflowId, kind) then Err(Duplicate)
    else
      Ok(db.(approvals := db.approvals[env.newApprovalId :=
               Approval(env.newApprovalId, workItemId, workflowId, kind, ResourceOf(kind, workItemId),
                        Requested, None, false, Some(env.expiresAt))]))
  }

  predicate PastDeadline(a: Approval, now: int) { a.expiresAt.Some? && a.expiresAt.value <= now }

  function RequireUsable(approvals: map<string, Approval>, id: string, now: int): Outcome<Approval> {
    if id !in approvals then Err(ApprovalNotFound)
    else if PastDeadline(approvals[id], now) then Err(ApprovalExpired)
    else if approvals[id].status != Requested || approvals[id].consumed then Err(ApprovalReuse)
    else Ok(approvals[id])
  }

  /** Marks an open request as expired; rows already decided stay as they are. */
  function MarkExpired(db: Db, id: string): Db {
    if id in db.approvals && db.approvals[id].status == Requested then
      db.(approvals := db.approvals[id := db.approvals[id].(status := Expired)])
    else db
  }

  function ConsumedStatus(decision: Decision): ApprovalStatus {
    if decision == Approve then Consumed else RejectedByUser
  }

  /** Writes the decision if the stored row is still an open request. */
  function ConsumeIfRequested(db: Db, id: string, decision: Decision): Outcome<Db> {
    if id in db.approvals && db.approvals[id].status == Requested then
      Ok(db.(approvals := db.approvals[id := db.approvals[id].(
               status := ConsumedStatus(decision), decision := Some(decision), consumed := true)]))
    else Err(ApprovalReuse)
  }

  // ----- Transitions -----

  function UpdatedRow(current: Row, to: State, env: Env): Row {
    current.(
      current := to,
      previous := Some(current.current),
      resume := if to.IsWaiting() then Some(to) else current.resume,
      revision := current.revision + 1,
      status := StatusOf(to),
      lease := if to.IsWaiting() || to.IsTerminal() then NoLease else HeldBy(env.owner, env.leaseUntil))
  }

  /** Replaces the stored row if its revision is the expected one. */
  function UpdateState(db: Db, updated: Row, expected: int): Outcome<Db> {
    if updated.id in db.rows && db.rows[updated.id].revision == expected then
      Ok(db.(rows := db.rows[updated.id := updated.(workItemId := db.rows[updated.id].workItemId)]))
    else Err(ConcurrentModification)
  }

  function Append(db: Db, workflowId: string, hop: Hop): Db {
    db.(history := db.history[workflowId := (if workflowId in db.history then db.history[workflowId] else []) + [hop]])
  }

  /** The common step: checks the graph against the row that was read, then compares and sets. */
  function ApplyTransition(
    db: Db, current: Row, to: State, trigger: Trigger, triggerId: Option<string>, env: Env): (r: Outcome<(Db, Row)>)
    ensures r.Ok? ==> r.value.1.current == to && r.value.1.id == current.id
  {
    if !Allows(Some(current.current), to) then Err(IllegalTransition)
    else
      var updated := UpdatedRow(current, to, env);
      match UpdateState(db, updated, current.revision)
      case Err(e) => Err(e)
      case Ok(db1) =>
        var db2 := Append(db1, current.id, Hop(Some(current.current), to, trigger, triggerId));
        if !to.IsWaiting() then Ok((db2, updated))
        else
          match RequestApproval(db2, updated.workItemId, updated.id,
                                if to == WaitingDesignApproval then Design else CodeChange, env)
          case Err(e) => Err(e)
          case Ok(db3) => Ok((db3, updated))
  }

  function Receive(db: Db, workflowId: string, workItemId: string, env: Env): Outcome<(Db, Row)> {
    if workItemId in db.items || workflowId in db.rows then Err(Duplicate)
    else
      var row := Row(workflowId, workItemId, Received, None, None, 0, Running, HeldBy(env.owner, env.leaseUntil));
      Ok((Append(db.(items := db.items[workItemId := Open], rows := db.rows[workflowId := row]),
                 workflowId, Hop(None, Received, System, None)), row))
  }

  /** `read` is the state the workflow row was read from. */
  function Transition(db: Db, read: Db, workflowId: string, to: State, env: Env): (r: Outcome<(Db, Row)>)
    ensures r.Ok? ==> r.value.1.current == to
  {
    if workflowId !in read.rows then Err(NotFound)
    else if read.rows[workflowId].current.IsWaiting() then Err(IllegalTransition)
    else ApplyTransition(db, read.rows[workflowId], to, Engine, None, env)
  }

  function TargetAfterDecision(current: Row, pending: Approval, decision: Decision): Outcome<State> {
    if current.current != WaitingFor(pending.kind)
       || ResourceOf(pending.kind, current.workItemId) != pending.resourceId
    then Err(ResourceMismatch)
    else if decision == Reject then Ok(Rejected)
    else Ok(if pending.kind == Design then Implementing else ApplyingChange)
  }

  /** `readApproval` and `readRow` are the states the approval and the workflow row were read from. */
  function Decide(db: Db, readApproval: Db, readRow: Db, approvalId: string, decision: Decision, env: Env)
    : Outcome<(Db, Row)>
  {
    match RequireUsable(readApproval.approvals, approvalId, env.now)
    case Err(e) => Err(e)
    case Ok(pending) =>
      if pending.workflowId !in readRow.rows then Err(NotFound)
      else
        var current := readRow.rows[pending.workflowId];
        match TargetAfterDecision(current, pending, decision)
        case Err(e) => Err(e)
        case Ok(target) =>
          match RequireUsable(db.approvals, approvalId, env.now)
          case Err(e) => Err(e)
          case Ok(_) =>
            match ConsumeIfRequested(db, approvalId, decision)
            case Err(e) => Err(e)
            case Ok(db1) => ApplyTransition(db1, current, target, UserDecision, Some(approvalId), env)
  }

  function CompleteAfterApply(db: Db, read: Db, workflowId: string, env: Env): Outcome<(Db, Row)> {
    if workflowId !in read.rows then Err(NotFound)
    else if read.rows[workflowId].current != ApplyingChange then Err(IllegalTransition)
    else
      var current := read.rows[workflowId];
      match ApplyTransition(db, current, Completed, System, None, env)
      case Err(e) => Err(e)
      case Ok((db1, row)) => Ok((db1.(items := db1.items[current.workItemId := ItemCompleted]), row))
  }

  /** Takes the lease if it is free or has run out; state and revision stay. */
  function TryAcquireLease(db: Db, workflowId: string, env: Env): Db {
    if workflowId in db.rows
       && (db.rows[workflowId].lease == NoLease || db.rows[workflowId].lease.until < env.now)
    then db.(rows := db.rows[workflowId := db.rows[workflowId].(lease := HeldBy(env.owner, env.leaseUntil))])
    else db
  }

  function ClearLease(db: Db, workflowId: string): Db {
    if workflowId in db.rows then db.(rows := db.rows[workflowId := db.rows[workflowId].(lease := NoLease)]) else db
  }
}
