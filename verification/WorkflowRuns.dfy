/**
 Runs of the workflow engine with any number of servers. A run is the list of committed states;
 a transaction may read rows from any of them, and its commit is one atomic step that re-checks
 the revision and the request status before it writes. The invariant holds in every state of
 every run.
 */
module WorkflowRuns {
  import opened Wrappers
  import opened Workflow

  // ----- Transactions -----

  /** Where a row was read: in the transaction's own working state or in an earlier commit. */
  datatype Source = Own | Commit(at: nat)

  datatype Op =
    | DoReceive(workflowId: string, workItemId: string)
    | DoTransition(workflowId: string, to: State, row: Source)
    | DoDecide(approvalId: string, decision: Decision, approval: Source, row: Source)
    | DoComplete(workflowId: string, row: Source)
    | DoExpire(approvalId: string)
    | DoAcquireLease(workflowId: string)
    | DoClearLease(workflowId: string)

  /** One statement of a transaction with the environment it ran in. */
  datatype Step = Step(op: Op, env: Env)

  function ReadFrom(log: seq<Db>, own: Db, source: Source): Db {
    if source.Commit? && source.at < |log| then log[source.at] else own
  }

  function Just(r: Outcome<(Db, Row)>): Outcome<Db> {
    match r
    case Err(e) => Err(e)
    case Ok((db, _)) => Ok(db)
  }

  function Perform(log: seq<Db>, own: Db, s: Step): Outcome<Db> {
    match s.op
    case DoReceive(wf, item) => Just(Receive(own, wf, item, s.env))
    case DoTransition(wf, to, row) => Just(Transition(own, ReadFrom(log, own, row), wf, to, s.env))
    case DoDecide(id, decision, approval, row) =>
      Just(Decide(own, ReadFrom(log, own, approval), ReadFrom(log, own, row), id, decision, s.env))
    case DoComplete(wf, row) => Just(CompleteAfterApply(own, ReadFrom(log, own, row), wf, s.env))
    case DoExpire(id) =>
      if id in own.approvals && PastDeadline(own.approvals[id], s.env.now) then Ok(MarkExpired(own, id)) else Ok(own)
    case DoAcquireLease(wf) => Ok(TryAcquireLease(own, wf, s.env))
    case DoClearLease(wf) => Ok(ClearLease(own, wf))
  }

  /** All statements of a transaction; the first error ends it. */
  function PerformAll(log: seq<Db>, own: Db, steps: seq<Step>): Outcome<Db>
    decreases |steps|
  {
    if steps == [] then Ok(own)
    else
      match Perform(log, own, steps[0])
      case Err(e) => Err(e)
      case Ok(next) => PerformAll(log, next, steps[1..])
  }

  /** The committed states after a list of transactions; a failed one is rolled back. */
  function Run(txs: seq<seq<Step>>): (log: seq<Db>)
    ensures |log| == |txs| + 1
  {
    if txs == [] then [EMPTY]
    else
      var log := Run(txs[..|txs| - 1]);
      match PerformAll(log, log[|log| - 1], txs[|txs| - 1])
      case Err(_) => log + [log[|log| - 1]]
      case Ok(db) => log + [db]
  }

  // ----- The invariant -----

  /** The history is one gap-free path of allowed transitions that begins at Received. */
  ghost predicate PathOk(h: seq<Hop>) {
    && |h| >= 1 && h[0].from == None && h[0].to == Received
    && forall k :: 1 <= k < |h| ==> h[k].from == Some(h[k - 1].to) && Allows(h[k].from, h[k].to)
  }

  /** The state with the given rank on the path without rejections. */
  function StateAt(k: nat): State
    requires k <= 10
  {
    [Received, Classifying, DiscoveringContext, Designing, WaitingDesignApproval, Implementing, Reviewing,
     PreparingChange, WaitingCodeApproval, ApplyingChange, Completed][k]
  }

  /** Number of history rows before the one that opens an approval of this kind. */
  function OpenedAt(kind: Kind): nat { if kind == Design then 4 else 8 }

  function TargetOf(kind: Kind, decision: Decision): State {
    if decision == Reject then Rejected else if kind == Design then Implementing else ApplyingChange
  }

  /** The row stands for the end of its history. */
  ghost predicate RowMatches(row: Row, h: seq<Hop>, id: string) {
    && PathOk(h)
    && row.id == id
    && row.revision == |h| - 1
    && row.current == h[|h| - 1].to && row.previous == h[|h| - 1].from
    && row.status == StatusOf(row.current)
  }

  /** The approval belongs to the work item, and is consumed exactly by the history row that names it. */
  ghost predicate ApprovalMatches(ap: Approval, a: string, workItemId: string, h: seq<Hop>) {
    var n := OpenedAt(ap.kind);
    && ap.id == a && ap.workItemId == workItemId && ap.resourceId == ResourceOf(ap.kind, workItemId)
    && |h| > n
    && (ap.consumed <==> |h| > n + 1)
    && (ap.consumed ==>
          && ap.decision.Some? && ap.status == ConsumedStatus(ap.decision.value)
          && h[n + 1].trigger == UserDecision && h[n + 1].triggerId == Some(a)
          && h[n + 1].to == TargetOf(ap.kind, ap.decision.value))
    && (!ap.consumed ==> ap.decision == None && (ap.status == Requested || ap.status == Expired))
  }

  /** Only decisions carry a trigger id. */
  ghost predicate TriggersMatch(h: seq<Hop>) {
    forall k :: 0 <= k < |h| ==> (h[k].triggerId.Some? <==> k == 5 || k == 9)
  }

  ghost predicate HasApproval(approvals: map<string, Approval>, id: string, kind: Kind) {
    exists a :: a in approvals && approvals[a].workflowId == id && approvals[a].kind == kind
  }

  ghost predicate OnePerKind(approvals: map<string, Approval>) {
    forall a, b | a in approvals && b in approvals ::
      approvals[a].workflowId == approvals[b].workflowId && approvals[a].kind == approvals[b].kind ==> a == b
  }

  ghost predicate ItemsSeparate(rows: map<string, Row>) {
    forall i, j | i in rows && j in rows :: rows[i].workItemId == rows[j].workItemId ==> i == j
  }

  ghost predicate RowsOk(db: Db) {
    && db.rows.Keys == db.history.Keys
    && forall id :: id in db.rows ==>
         db.rows[id].workItemId in db.items && RowMatches(db.rows[id], db.history[id], id) &&
             TriggersMatch(db.history[id])
  }

  ghost predicate ApprovalsOk(db: Db) {
    forall a :: a in db.approvals ==>
      var id := db.approvals[a].workflowId;
      id in db.rows && id in db.history && ApprovalMatches(db.approvals[a], a, db.rows[id].workItemId, db.history[id])
  }

  /** Every waiting state that was entered has opened its request. */
  ghost predicate OpenedOk(db: Db) {
    forall id, kind: Kind :: id in db.history && |db.history[id]| > OpenedAt(kind) ==>
        HasApproval(db.approvals, id, kind)
  }

  ghost predicate DbOk(db: Db) {
    RowsOk(db) && ApprovalsOk(db) && OpenedOk(db) && OnePerKind(db.approvals) && ItemsSeparate(db.rows)
  }

  /** Nothing that was committed is lost: histories grow, decided approvals stay. */
  ghost predicate Extends(s: Db, w: Db) {
    && (forall i :: i in s.items ==> i in w.items)
    && (forall id :: id in s.rows ==> id in w.rows && w.rows[id].workItemId == s.rows[id].workItemId)
    && (forall id :: id in s.history ==> id in w.history && s.history[id] <= w.history[id])
    && (forall a :: a in s.approvals ==>
          && a in w.approvals
          && w.approvals[a].workItemId == s.approvals[a].workItemId
          && w.approvals[a].workflowId == s.approvals[a].workflowId
          && w.approvals[a].kind == s.approvals[a].kind
          && w.approvals[a].resourceId == s.approvals[a].resourceId
          && (s.approvals[a].status != Requested ==> w.approvals[a] == s.approvals[a]))
  }

  lemma ExtendsChain(a: Db, b: Db, c: Db)
    requires Extends(a, b) && Extends(b, c)
    ensures Extends(a, c)
  {
    forall id | id in a.history ensures id in c.history && a.history[id] <= c.history[id] {
      assert b.history[id] <= c.history[id];
    }
  }

  // ----- Ranks -----

  lemma AllowedRank(from: State, to: State)
    requires Allows(Some(from), to)
    ensures !from.IsTerminal()
    ensures to == Rejected ==> from.IsWaiting()
    ensures to != Rejected ==> to.Rank() == from.Rank() + 1 <= 10
    ensures to != Received
  {
  }

  lemma StateAtRank(s: State)
    requires s != Rejected
    ensures StateAt(s.Rank()) == s
  {
  }

  /** Every row of a history is at the rank of its index, or is a final rejection after a wait. */
  lemma {:induction false} PathRanks(h: seq<Hop>, k: nat)
    requires PathOk(h) && k < |h|
    ensures h[k].to != Rejected ==> h[k].to.Rank() == k
    ensures h[k].to == Rejected ==> k == |h| - 1 && (k == 5 || k == 9)
  {
    if k > 0 {
      PathRanks(h, k - 1);
      AllowedRank(h[k - 1].to, h[k].to);
      if k < |h| - 1 {
        AllowedRank(h[k].to, h[k + 1].to);
      }
    }
  }

  lemma CurrentRank(row: Row, h: seq<Hop>, id: string)
    requires RowMatches(row, h, id)
    ensures row.current != Rejected ==> row.revision == row.current.Rank()
    ensures row.current == Rejected ==> row.revision == 5 || row.revision == 9
  {
    PathRanks(h, |h| - 1);
  }

  // ----- Reading a row whose revision has not moved -----

  /** A row read earlier whose revision still stands agrees with the stored one. */
  lemma UnmovedRow(s: Db, w: Db, id: string)
    requires RowsOk(s) && RowsOk(w) && Extends(s, w) && id in s.rows
    requires w.rows[id].revision == s.rows[id].revision
    ensures w.history[id] == s.history[id]
    ensures w.rows[id].current == s.rows[id].current && w.rows[id].workItemId == s.rows[id].workItemId
    ensures w.rows[id].id == s.rows[id].id == id
  {
  }

  // ----- Adding one history row -----

  /** Stored state with one more hop: row and history of `id`, and the approvals, are new. */
  function WithHop(w: Db, id: string, row: Row, hop: Hop, approvals: map<string, Approval>): Db
    requires id in w.history
  {
    w.(rows := w.rows[id := row], history := w.history[id := w.history[id] + [hop]], approvals := approvals)
  }

  ghost predicate GoodHop(was: Row, id: string, row: Row, hop: Hop) {
    && hop.from == Some(was.current) && Allows(hop.from, hop.to)
    && row.id == id && row.workItemId == was.workItemId
    && row.revision == was.revision + 1
    && row.current == hop.to && row.previous == hop.from && row.status == StatusOf(hop.to)
  }

  lemma HopKeepsRow(was: Row, h: seq<Hop>, id: string, row: Row, hop: Hop)
    requires RowMatches(was, h, id) && TriggersMatch(h) && GoodHop(was, id, row, hop)
    requires hop.triggerId.Some? <==> was.current.IsWaiting()
    ensures RowMatches(row, h + [hop], id) && TriggersMatch(h + [hop])
    ensures was.current.IsWaiting() <==> |h| == 5 || |h| == 9
    ensures was.current.IsWaiting() ==> was.current == if |h| == 5 then WaitingDesignApproval else WaitingCodeApproval
    ensures hop.to.IsWaiting() ==> |h| == if hop.to == WaitingDesignApproval then 4 else 8
  {
    CurrentRank(was, h, id);
    AllowedRank(was.current, hop.to);
    var g := h + [hop];
    forall k | 1 <= k < |g| ensures g[k].from == Some(g[k - 1].to) && Allows(g[k].from, g[k].to) {
      assert g[k - 1] == h[k - 1];
      assert k < |h| ==> g[k] == h[k];
    }
  }

  lemma ApprovalUnmoved(ap: Approval, a: string, item: string, h: seq<Hop>, hop: Hop)
    requires ApprovalMatches(ap, a, item, h) && |h| != OpenedAt(ap.kind) + 1
    ensures ApprovalMatches(ap, a, item, h + [hop])
  {
  }

  lemma ItemsAfterHop(rows: map<string, Row>, id: string, row: Row)
    requires ItemsSeparate(rows) && id in rows && row.workItemId == rows[id].workItemId
    ensures ItemsSeparate(rows[id := row])
  {
  }

  lemma RowsAfterHop(w: Db, id: string, row: Row, hop: Hop, approvals: map<string, Approval>)
    requires RowsOk(w) && id in w.rows && GoodHop(w.rows[id], id, row, hop)
    requires hop.triggerId.Some? <==> w.rows[id].current.IsWaiting()
    ensures RowsOk(WithHop(w, id, row, hop, approvals))
  {
    hide Allows;
    var v := WithHop(w, id, row, hop, approvals);
    assert v.rows.Keys == w.rows.Keys && v.history.Keys == w.history.Keys;
    forall i | i in v.rows
      ensures v.rows[i].workItemId in v.items && RowMatches(v.rows[i], v.history[i], i) && TriggersMatch(v.history[i])
    {
      if i == id {
        HopKeepsRow(w.rows[id], w.history[id], id, row, hop);
      } else {
        assert v.rows[i] == w.rows[i] && v.history[i] == w.history[i];
      }
    }
  }

  /** Approvals of other workflows, and of this one unless it waits for them, keep matching. */
  lemma OtherApprovals(w: Db, id: string, row: Row, hop: Hop, v: Db, a: string)
    requires DbOk(w) && id in w.rows && row.workItemId == w.rows[id].workItemId
    requires v.rows == w.rows[id := row] && v.history == w.history[id := w.history[id] + [hop]]
    requires a in w.approvals && a in v.approvals && v.approvals[a] == w.approvals[a]
    requires w.approvals[a].workflowId == id ==> |w.history[id]| != OpenedAt(w.approvals[a].kind) + 1
    ensures var i := v.approvals[a].workflowId;
            i in v.rows && i in v.history && ApprovalMatches(v.approvals[a], a, v.rows[i].workItemId, v.history[i])
  {
    if w.approvals[a].workflowId == id {
      ApprovalUnmoved(w.approvals[a], a, w.rows[id].workItemId, w.history[id], hop);
    }
  }

  lemma OpenedAfter(w: Db, v: Db, id: string, kind: Kind)
    requires OpenedOk(w) && id in w.history && |w.history[id]| > OpenedAt(kind)
    requires forall a :: a in w.approvals ==>
               a in v.approvals && v.approvals[a].workflowId == w.approvals[a].workflowId &&
                   v.approvals[a].kind == w.approvals[a].kind
    ensures HasApproval(v.approvals, id, kind)
  {
    assert HasApproval(w.approvals, id, kind);
    var a :| a in w.approvals && w.approvals[a].workflowId == id && w.approvals[a].kind == kind;
    assert a in v.approvals;
  }

  /** A hop out of a state that does not wait, into one that does not wait. */
  lemma PlainHop(w: Db, id: string, row: Row, hop: Hop)
    requires DbOk(w) && id in w.rows && GoodHop(w.rows[id], id, row, hop)
    requires !w.rows[id].current.IsWaiting() && !hop.to.IsWaiting() && hop.triggerId == None
    ensures DbOk(WithHop(w, id, row, hop, w.approvals))
    ensures Extends(w, WithHop(w, id, row, hop, w.approvals))
  {
    hide Allows, PathOk, TriggersMatch;
    var v := WithHop(w, id, row, hop, w.approvals);
    RowsAfterHop(w, id, row, hop, w.approvals);
    ItemsAfterHop(w.rows, id, row);
    HopKeepsRow(w.rows[id], w.history[id], id, row, hop);
    forall a | a in v.approvals
      ensures var i := v.approvals[a].workflowId;
              i in v.rows && i in v.history && ApprovalMatches(v.approvals[a], a, v.rows[i].workItemId, v.history[i])
    {
      OtherApprovals(w, id, row, hop, v, a);
    }
    PlainHopOpens(w, id, row, hop);
  }

  lemma PlainHopOpens(w: Db, id: string, row: Row, hop: Hop)
    requires DbOk(w) && id in w.rows && GoodHop(w.rows[id], id, row, hop)
    requires !hop.to.IsWaiting() && (hop.triggerId.Some? <==> w.rows[id].current.IsWaiting())
    ensures OpenedOk(WithHop(w, id, row, hop, w.approvals))
  {
    var v := WithHop(w, id, row, hop, w.approvals);
    HopKeepsRow(w.rows[id], w.history[id], id, row, hop);
    PathRanks(v.history[id], |w.history[id]|);
    forall i, kind: Kind | i in v.history && |v.history[i]| > OpenedAt(kind) ensures HasApproval(v.approvals, i, kind) {
      assert |w.history[i]| > OpenedAt(kind);
    }
  }

  /** A hop keeps everything that was committed, if the approvals do. */
  lemma HopExtends(w: Db, id: string, row: Row, hop: Hop, approvals: map<string, Approval>)
    requires id in w.rows && id in w.history && row.workItemId == w.rows[id].workItemId
    requires Extends(w, w.(approvals := approvals))
    ensures Extends(w, WithHop(w, id, row, hop, approvals))
  {
  }

  lemma NoneOpenedYet(w: Db, id: string, kind: Kind)
    requires ApprovalsOk(w) && id in w.history && |w.history[id]| <= OpenedAt(kind)
    ensures !HasApproval(w.approvals, id, kind)
  {
    forall b | b in w.approvals && w.approvals[b].workflowId == id ensures w.approvals[b].kind != kind {
      assert |w.history[w.approvals[b].workflowId]| > OpenedAt(w.approvals[b].kind);
    }
  }

  lemma OpeningApprovals(w: Db, id: string, row: Row, hop: Hop, a: Approval)
    requires DbOk(w) && id in w.rows && id in w.history && row.workItemId == w.rows[id].workItemId
    requires |w.history[id]| == OpenedAt(a.kind) && a.id !in w.approvals
    requires a.workflowId == id && a.workItemId == w.rows[id].workItemId
    requires a.resourceId == ResourceOf(a.kind, a.workItemId)
    requires a.status == Requested && !a.consumed && a.decision == None
    ensures ApprovalsOk(WithHop(w, id, row, hop, w.approvals[a.id := a]))
  {
    var v := WithHop(w, id, row, hop, w.approvals[a.id := a]);
    NoneOpenedYet(w, id, a.kind);
    forall b | b in v.approvals
      ensures var i := v.approvals[b].workflowId;
              i in v.rows && i in v.history && ApprovalMatches(v.approvals[b], b, v.rows[i].workItemId, v.history[i])
    {
      if b != a.id {
        assert w.approvals[b].workflowId == id ==> |w.history[id]| != OpenedAt(w.approvals[b].kind) + 1;
        OtherApprovals(w, id, row, hop, v, b);
      }
    }
  }

  lemma OpeningUnique(approvals: map<string, Approval>, a: Approval)
    requires OnePerKind(approvals) && a.id !in approvals && !HasApproval(approvals, a.workflowId, a.kind)
    ensures OnePerKind(approvals[a.id := a])
  {
  }

  lemma OpeningOpens(w: Db, v: Db, id: string, hop: Hop, a: Approval)
    requires OpenedOk(w) && id in w.history && a.id !in w.approvals && a.workflowId == id
    requires v.history == w.history[id := w.history[id] + [hop]] && v.approvals == w.approvals[a.id := a]
    requires |w.history[id]| == OpenedAt(a.kind)
    ensures OpenedOk(v)
  {
    forall i, kind: Kind | i in v.history && |v.history[i]| > OpenedAt(kind) ensures HasApproval(v.approvals, i, kind) {
      if i == id && kind == a.kind {
        assert a.id in v.approvals;
      } else {
        OpenedAfter(w, v, i, kind);
      }
    }
  }

  /** A hop into a waiting state together with the request it opens. */
  lemma OpeningHop(w: Db, id: string, row: Row, hop: Hop, a: Approval)
    requires DbOk(w) && id in w.rows && GoodHop(w.rows[id], id, row, hop)
    requires !w.rows[id].current.IsWaiting() && hop.to == WaitingFor(a.kind) && hop.triggerId == None
    requires a.id !in w.approvals && a.workflowId == id && a.workItemId == w.rows[id].workItemId
    requires a.resourceId == ResourceOf(a.kind, a.workItemId)
    requires a.status == Requested && !a.consumed && a.decision == None
    ensures DbOk(WithHop(w, id, row, hop, w.approvals[a.id := a]))
    ensures Extends(w, WithHop(w, id, row, hop, w.approvals[a.id := a]))
  {
    hide Allows, PathOk, TriggersMatch, ApprovalMatches, HasApproval;
    HopKeepsRow(w.rows[id], w.history[id], id, row, hop);
    RowsAfterHop(w, id, row, hop, w.approvals[a.id := a]);
    ItemsAfterHop(w.rows, id, row);
    NoneOpenedYet(w, id, a.kind);
    OpeningApprovals(w, id, row, hop, a);
    OpeningUnique(w.approvals, a);
    OpeningOpens(w, WithHop(w, id, row, hop, w.approvals[a.id := a]), id, hop, a);
    HopExtends(w, id, row, hop, w.approvals[a.id := a]);
  }

  function Decided(a: Approval, decision: Decision): Approval {
    a.(status := ConsumedStatus(decision), decision := Some(decision), consumed := true)
  }

  lemma DecidedMatches(ap: Approval, a: string, item: string, h: seq<Hop>, hop: Hop, decision: Decision)
    requires ApprovalMatches(ap, a, item, h) && |h| == OpenedAt(ap.kind) + 1
    requires hop.to == TargetOf(ap.kind, decision) && hop.trigger == UserDecision && hop.triggerId == Some(a)
    ensures ApprovalMatches(Decided(ap, decision), a, item, h + [hop])
  {
  }

  lemma DecisionApprovals(w: Db, id: string, row: Row, hop: Hop, a: string, decision: Decision)
    requires DbOk(w) && id in w.rows && id in w.history && row.workItemId == w.rows[id].workItemId
    requires a in w.approvals && w.approvals[a].workflowId == id
    requires |w.history[id]| == OpenedAt(w.approvals[a].kind) + 1
    requires hop.to == TargetOf(w.approvals[a].kind, decision) && hop.trigger == UserDecision &&
             hop.triggerId == Some(a)
    ensures ApprovalsOk(WithHop(w, id, row, hop, w.approvals[a := Decided(w.approvals[a], decision)]))
  {
    var v := WithHop(w, id, row, hop, w.approvals[a := Decided(w.approvals[a], decision)]);
    DecidedMatches(w.approvals[a], a, w.rows[id].workItemId, w.history[id], hop, decision);
    forall b | b in v.approvals
      ensures var i := v.approvals[b].workflowId;
              i in v.rows && i in v.history && ApprovalMatches(v.approvals[b], b, v.rows[i].workItemId, v.history[i])
    {
      if b != a {
        assert w.approvals[b].workflowId == id ==> w.approvals[b].kind != w.approvals[a].kind;
        OtherApprovals(w, id, row, hop, v, b);
      }
    }
  }

  lemma DecisionOpens(w: Db, v: Db, id: string, hop: Hop, a: string, decision: Decision)
    requires OpenedOk(w) && id in w.history && a in w.approvals
    requires v.history == w.history[id := w.history[id] + [hop]]
    requires v.approvals == w.approvals[a := Decided(w.approvals[a], decision)]
    requires |w.history[id]| == 5 || |w.history[id]| == 9
    ensures OpenedOk(v)
  {
    forall i, kind: Kind | i in v.history && |v.history[i]| > OpenedAt(kind) ensures HasApproval(v.approvals, i, kind) {
      OpenedAfter(w, v, i, kind);
    }
  }

  lemma DecisionUnique(approvals: map<string, Approval>, a: string, decision: Decision)
    requires OnePerKind(approvals) && a in approvals
    ensures OnePerKind(approvals[a := Decided(approvals[a], decision)])
  {
  }

  lemma DecisionExtends(w: Db, a: string, decision: Decision)
    requires a in w.approvals && w.approvals[a].status == Requested
    ensures Extends(w, w.(approvals := w.approvals[a := Decided(w.approvals[a], decision)]))
  {
  }

  /** A hop out of a waiting state together with the consumption of its open request. */
  lemma DecisionHop(w: Db, id: string, row: Row, hop: Hop, a: string, decision: Decision)
    requires DbOk(w) && id in w.rows && GoodHop(w.rows[id], id, row, hop)
    requires a in w.approvals && w.approvals[a].workflowId == id && w.approvals[a].status == Requested
    requires w.rows[id].current == WaitingFor(w.approvals[a].kind)
    requires hop.to == TargetOf(w.approvals[a].kind, decision)
    requires hop.trigger == UserDecision && hop.triggerId == Some(a)
    ensures DbOk(WithHop(w, id, row, hop, w.approvals[a := Decided(w.approvals[a], decision)]))
    ensures Extends(w, WithHop(w, id, row, hop, w.approvals[a := Decided(w.approvals[a], decision)]))
  {
    var approvals := w.approvals[a := Decided(w.approvals[a], decision)];
    HopKeepsRow(w.rows[id], w.history[id], id, row, hop);
    RowsAfterHop(w, id, row, hop, approvals);
    ItemsAfterHop(w.rows, id, row);
    DecisionApprovals(w, id, row, hop, a, decision);
    DecisionOpens(w, WithHop(w, id, row, hop, approvals), id, hop, a, decision);
    DecisionUnique(w.approvals, a, decision);
    DecisionExtends(w, a, decision);
    HopExtends(w, id, row, hop, approvals);
  }

  // ----- Every operation keeps the invariant -----

  ghost predicate Readable(s: Db, w: Db) { DbOk(s) && Extends(s, w) }

  /** The outcome of an operation that succeeds keeps the invariant and loses nothing. */
  ghost predicate Keeps(w: Db, r: Outcome<(Db, Row)>) {
    r.Ok? ==> DbOk(r.value.0) && Extends(w, r.value.0)
  }

  /** A hop decided on an earlier reading of the row is a good hop if the revision still stands. */
  lemma StaleHopIsGood(s: Db, w: Db, id: string, to: State, trigger: Trigger, triggerId: Option<string>, env: Env)
    requires DbOk(w) && Readable(s, w) && id in s.rows && id in w.rows
    requires s.rows[id].revision == w.rows[id].revision && Allows(Some(s.rows[id].current), to)
    ensures var row := UpdatedRow(s.rows[id], to, env).(workItemId := w.rows[id].workItemId);
            && GoodHop(w.rows[id], id, row, Hop(Some(s.rows[id].current), to, trigger, triggerId))
            && row == UpdatedRow(s.rows[id], to, env)
    ensures w.rows[id].current == s.rows[id].current
  {
    UnmovedRow(s, w, id);
  }

  lemma TransitionShape(w: Db, current: Row, to: State, trigger: Trigger, triggerId: Option<string>, env: Env)
    requires ApplyTransition(w, current, to, trigger, triggerId, env).Ok?
    ensures current.id in w.rows && w.rows[current.id].revision == current.revision && Allows(Some(current.current), to)
    ensures !to.IsWaiting() && current.id in w.history ==>
              ApplyTransition(w, current, to, trigger, triggerId, env).value.0
              == WithHop(w, current.id, UpdatedRow(current, to, env).(workItemId := w.rows[current.id].workItemId),
                         Hop(Some(current.current), to, trigger, triggerId), w.approvals)
    ensures to.IsWaiting() && current.id in w.history ==>
              var kind := if to == WaitingDesignApproval then Design else CodeChange;
              && env.newApprovalId !in w.approvals
              && ApplyTransition(w, current, to, trigger, triggerId, env).value.0
                 == WithHop(w, current.id, UpdatedRow(current, to, env).(workItemId := w.rows[current.id].workItemId),
                            Hop(Some(current.current), to, trigger, triggerId),
                            w.approvals[env.newApprovalId :=
                              Approval(env.newApprovalId, current.workItemId, current.id, kind,
                                       ResourceOf(kind, current.workItemId), Requested, None, false,
                                           Some(env.expiresAt))])
  {
  }

  lemma UndecidedPlain(s: Db, w: Db, id: string, to: State, trigger: Trigger, env: Env)
    requires DbOk(w) && Readable(s, w) && id in s.rows && !s.rows[id].current.IsWaiting() && !to.IsWaiting()
    ensures Keeps(w, ApplyTransition(w, s.rows[id], to, trigger, None, env))
  {
    if ApplyTransition(w, s.rows[id], to, trigger, None, env).Ok? {
      ReadRowId(s, w, id);
      TransitionShape(w, s.rows[id], to, trigger, None, env);
      StaleHopIsGood(s, w, id, to, trigger, None, env);
      PlainHop(w, id, UpdatedRow(s.rows[id], to, env), Hop(Some(s.rows[id].current), to, trigger, None));
    }
  }

  lemma UndecidedOpening(s: Db, w: Db, id: string, to: State, trigger: Trigger, env: Env)
    requires DbOk(w) && Readable(s, w) && id in s.rows && !s.rows[id].current.IsWaiting() && to.IsWaiting()
    ensures Keeps(w, ApplyTransition(w, s.rows[id], to, trigger, None, env))
  {
    if ApplyTransition(w, s.rows[id], to, trigger, None, env).Ok? {
      ReadRowId(s, w, id);
      TransitionShape(w, s.rows[id], to, trigger, None, env);
      StaleHopIsGood(s, w, id, to, trigger, None, env);
      var kind, item := if to == WaitingDesignApproval then Design else CodeChange, s.rows[id].workItemId;
      OpeningHop(w, id, UpdatedRow(s.rows[id], to, env), Hop(Some(s.rows[id].current), to, trigger, None),
                 Approval(env.newApprovalId, item, id, kind, ResourceOf(kind, item), Requested, None, false,
                     Some(env.expiresAt)));
    }
  }

  lemma ReadRowId(s: Db, w: Db, id: string)
    requires RowsOk(w) && RowsOk(s) && Extends(s, w) && id in s.rows
    ensures s.rows[id].id == id && id in w.rows && id in w.history && s.rows[id].workItemId == w.rows[id].workItemId
  {
  }

  /** A hop without a decision, out of a state that does not wait. */
  lemma UndecidedStep(s: Db, w: Db, id: string, to: State, trigger: Trigger, env: Env)
    requires DbOk(w) && Readable(s, w) && id in s.rows && !s.rows[id].current.IsWaiting()
    ensures Keeps(w, ApplyTransition(w, s.rows[id], to, trigger, None, env))
  {
    if to.IsWaiting() {
      UndecidedOpening(s, w, id, to, trigger, env);
    } else {
      UndecidedPlain(s, w, id, to, trigger, env);
    }
  }

  lemma TransitionKeeps(s: Db, w: Db, id: string, to: State, env: Env)
    requires DbOk(w) && Readable(s, w)
    ensures Keeps(w, Transition(w, s, id, to, env))
  {
    if id in s.rows && !s.rows[id].current.IsWaiting() {
      UndecidedStep(s, w, id, to, Engine, env);
    }
  }

  lemma ItemDone(v: Db, item: string)
    requires DbOk(v) && item in v.items
    ensures DbOk(v.(items := v.items[item := ItemCompleted]))
    ensures Extends(v, v.(items := v.items[item := ItemCompleted]))
  {
    assert v.items[item := ItemCompleted].Keys == v.items.Keys;
  }

  lemma ReadItem(s: Db, w: Db, v: Db, id: string)
    requires DbOk(s) && Extends(s, w) && Extends(w, v) && id in s.rows
    ensures s.rows[id].workItemId in v.items
  {
  }

  lemma CompleteKeeps(s: Db, w: Db, id: string, env: Env)
    requires DbOk(w) && Readable(s, w)
    ensures Keeps(w, CompleteAfterApply(w, s, id, env))
  {
    hide DbOk, Extends, ApplyTransition;
    if id in s.rows && s.rows[id].current == ApplyingChange {
      UndecidedStep(s, w, id, Completed, System, env);
      var r := ApplyTransition(w, s.rows[id], Completed, System, None, env);
      if r.Ok? {
        ReadItem(s, w, r.value.0, id);
        ItemDone(r.value.0, s.rows[id].workItemId);
        ExtendsChain(w, r.value.0, CompleteAfterApply(w, s, id, env).value.0);
      }
    }
  }

  /** What a successful decision did to the stored state. */
  lemma DecideShape(sa: Db, sr: Db, w: Db, a: string, decision: Decision, env: Env)
    requires Decide(w, sa, sr, a, decision, env).Ok?
    requires Extends(sa, w) && Extends(sr, w)
    ensures a in w.approvals && w.approvals[a].status == Requested
    ensures var id := w.approvals[a].workflowId;
            && id in sr.rows && sr.rows[id].current == WaitingFor(w.approvals[a].kind)
            && ApplyTransition(w.(approvals := w.approvals[a := Decided(w.approvals[a], decision)]), sr.rows[id],
                               TargetOf(w.approvals[a].kind, decision), UserDecision, Some(a), env)
               == Decide(w, sa, sr, a, decision, env)
  {
    var pending := sa.approvals[a];
    assert a in sa.approvals && a in w.approvals;
    assert pending.workflowId == w.approvals[a].workflowId && pending.kind == w.approvals[a].kind;
    assert TargetAfterDecision(sr.rows[pending.workflowId], pending, decision) == Ok(TargetOf(pending.kind, decision));
    assert ConsumeIfRequested(w, a, decision) ==
        Ok(w.(approvals := w.approvals[a := Decided(w.approvals[a], decision)]));
  }

  lemma DecideKeeps(sa: Db, sr: Db, w: Db, a: string, decision: Decision, env: Env)
    requires DbOk(w) && Readable(sa, w) && Readable(sr, w)
    ensures Keeps(w, Decide(w, sa, sr, a, decision, env))
  {
    if Decide(w, sa, sr, a, decision, env).Ok? {
      DecideShape(sa, sr, w, a, decision, env);
      DecideStep(sr, w, w.approvals[a].workflowId, TargetOf(w.approvals[a].kind, decision), a, decision, env);
    }
  }

  lemma DecideStep(sr: Db, w: Db, id: string, target: State, a: string, decision: Decision, env: Env)
    requires DbOk(w) && Readable(sr, w) && id in sr.rows && a in w.approvals && w.approvals[a].workflowId == id
    requires w.approvals[a].status == Requested && sr.rows[id].current == WaitingFor(w.approvals[a].kind)
    requires target == TargetOf(w.approvals[a].kind, decision)
    ensures Keeps(w, ApplyTransition(w.(approvals := w.approvals[a := Decided(w.approvals[a], decision)]), sr.rows[id],
                                     target, UserDecision, Some(a), env))
  {
    hide Allows, RowMatches, ApprovalMatches;
    var w1 := w.(approvals := w.approvals[a := Decided(w.approvals[a], decision)]);
    if ApplyTransition(w1, sr.rows[id], target, UserDecision, Some(a), env).Ok? {
      ReadRowId(sr, w, id);
      TransitionShape(w1, sr.rows[id], target, UserDecision, Some(a), env);
      StaleHopIsGood(sr, w, id, target, UserDecision, Some(a), env);
      DecisionHop(w, id, UpdatedRow(sr.rows[id], target, env),
          Hop(Some(sr.rows[id].current), target, UserDecision, Some(a)),
                  a, decision);
    }
  }

  lemma ReceiveKeeps(w: Db, id: string, item: string, env: Env)
    requires DbOk(w)
    ensures Keeps(w, Receive(w, id, item, env))
  {
    var r := Receive(w, id, item, env);
    if r.Ok? {
      var v := r.value.0;
      ReceiveShape(w, id, item, env);
      ReceiveRows(w, v, id, item, r.value.1);
      ReceiveApprovals(w, v, id);
      ReceiveOpens(w, v, id);
    }
  }

  lemma ReceiveShape(w: Db, id: string, item: string, env: Env)
    requires Receive(w, id, item, env).Ok? && w.rows.Keys == w.history.Keys
    ensures var (v, row) := Receive(w, id, item, env).value;
            && v.items == w.items[item := Open] && v.rows == w.rows[id := row]
            && v.history == w.history[id := [Hop(None, Received, System, None)]] && v.approvals == w.approvals
            && Extends(w, v)
  {
    assert id !in w.history && [] + [Hop(None, Received, System, None)] == [Hop(None, Received, System, None)];
  }

  lemma ReceiveRows(w: Db, v: Db, id: string, item: string, row: Row)
    requires RowsOk(w) && ItemsSeparate(w.rows) && id !in w.rows && item !in w.items
    requires v.items == w.items[item := Open] && v.rows == w.rows[id := row]
    requires v.history == w.history[id := [Hop(None, Received, System, None)]]
    requires row.id == id && row.workItemId == item && row.revision == 0 && row.current == Received
    requires row.previous == None && row.status == Running
    ensures RowsOk(v) && ItemsSeparate(v.rows)
  {
    hide RowMatches, TriggersMatch;
    ReceivedRow(row, id);
    assert forall i :: i in w.rows ==> w.rows[i].workItemId != item;
  }

  lemma ReceivedRow(row: Row, id: string)
    requires row.id == id && row.revision == 0 && row.current == Received && row.previous == None &&
             row.status == Running
    ensures RowMatches(row, [Hop(None, Received, System, None)], id) &&
            TriggersMatch([Hop(None, Received, System, None)])
  {
  }

  lemma ReceiveApprovals(w: Db, v: Db, id: string)
    requires ApprovalsOk(w) && id !in w.rows && v.approvals == w.approvals
    requires forall i :: i in w.rows ==> i in v.rows && v.rows[i] == w.rows[i]
    requires forall i :: i in w.history && i != id ==> i in v.history && v.history[i] == w.history[i]
    ensures ApprovalsOk(v)
  {
  }

  lemma ReceiveOpens(w: Db, v: Db, id: string)
    requires OpenedOk(w) && v.approvals == w.approvals
    requires v.history == w.history[id := [Hop(None, Received, System, None)]]
    ensures OpenedOk(v)
  {
    forall i, kind: Kind | i in v.history && |v.history[i]| > OpenedAt(kind) ensures HasApproval(v.approvals, i, kind) {
      assert i != id && HasApproval(w.approvals, i, kind);
    }
  }

  lemma ExpireKeeps(w: Db, a: string)
    requires DbOk(w)
    ensures DbOk(MarkExpired(w, a)) && Extends(w, MarkExpired(w, a))
  {
    var v := MarkExpired(w, a);
    if v != w {
      ExpireApprovals(w, a);
      ExpireOpens(w, a);
    }
  }

  lemma ExpireApprovals(w: Db, a: string)
    requires ApprovalsOk(w) && OnePerKind(w.approvals)
    ensures ApprovalsOk(MarkExpired(w, a)) && OnePerKind(MarkExpired(w, a).approvals)
  {
    var v := MarkExpired(w, a);
    assert v.rows == w.rows && v.history == w.history;
    forall b | b in v.approvals
      ensures var i := v.approvals[b].workflowId;
              i in v.rows && i in v.history && ApprovalMatches(v.approvals[b], b, v.rows[i].workItemId, v.history[i])
    {
      assert b in w.approvals && v.approvals[b].workflowId == w.approvals[b].workflowId;
    }
  }

  lemma ExpireOpens(w: Db, a: string)
    requires OpenedOk(w)
    ensures OpenedOk(MarkExpired(w, a))
  {
    var v := MarkExpired(w, a);
    forall i, kind: Kind | i in v.history && |v.history[i]| > OpenedAt(kind) ensures HasApproval(v.approvals, i, kind) {
      OpenedAfter(w, v, i, kind);
    }
  }

  lemma LeaseKeeps(w: Db, id: string, lease: Lease)
    requires DbOk(w) && id in w.rows
    ensures DbOk(w.(rows := w.rows[id := w.rows[id].(lease := lease)]))
    ensures Extends(w, w.(rows := w.rows[id := w.rows[id].(lease := lease)]))
  {
    hide RowMatches, TriggersMatch, ApprovalMatches, HasApproval, OnePerKind;
    LeaseRows(w, id, lease);
    LeaseApprovals(w, id, lease);
    ItemsAfterHop(w.rows, id, w.rows[id].(lease := lease));
  }

  lemma LeaseRows(w: Db, id: string, lease: Lease)
    requires RowsOk(w) && id in w.rows
    ensures RowsOk(w.(rows := w.rows[id := w.rows[id].(lease := lease)]))
  {
    var v := w.(rows := w.rows[id := w.rows[id].(lease := lease)]);
    assert v.rows.Keys == w.rows.Keys;
    assert RowMatches(w.rows[id], w.history[id], id);
  }

  lemma LeaseApprovals(w: Db, id: string, lease: Lease)
    requires ApprovalsOk(w) && OpenedOk(w) && id in w.rows
    ensures var v := w.(rows := w.rows[id := w.rows[id].(lease := lease)]); ApprovalsOk(v) && OpenedOk(v)
  {
  }

  lemma ExtendsSelf(w: Db)
    ensures Extends(w, w)
  {
  }

  lemma PerformKeeps(log: seq<Db>, w: Db, s: Step)
    requires DbOk(w) && forall d :: d in log ==> Readable(d, w)
    requires Perform(log, w, s).Ok?
    ensures DbOk(Perform(log, w, s).value) && Extends(w, Perform(log, w, s).value)
  {
    ExtendsSelf(w);
    hide DbOk, Extends, Receive, Transition, Decide, CompleteAfterApply, MarkExpired;
    assert forall source: Source :: Readable(ReadFrom(log, w, source), w);
    match s.op
    case DoReceive(wf, item) => ReceiveKeeps(w, wf, item, s.env);
    case DoTransition(wf, to, row) => TransitionKeeps(ReadFrom(log, w, row), w, wf, to, s.env);
    case DoDecide(a, decision, approval, row) =>
      DecideKeeps(ReadFrom(log, w, approval), ReadFrom(log, w, row), w, a, decision, s.env);
    case DoComplete(wf, row) => CompleteKeeps(ReadFrom(log, w, row), w, wf, s.env);
    case DoExpire(a) => ExpireKeeps(w, a);
    case DoAcquireLease(wf) =>
      if wf in w.rows { LeaseKeeps(w, wf, HeldBy(s.env.owner, s.env.leaseUntil)); }
    case DoClearLease(wf) =>
      if wf in w.rows { LeaseKeeps(w, wf, NoLease); }
  }

  lemma {:induction false} PerformAllKeeps(log: seq<Db>, w: Db, steps: seq<Step>)
    requires DbOk(w) && forall d :: d in log ==> Readable(d, w)
    requires PerformAll(log, w, steps).Ok?
    ensures DbOk(PerformAll(log, w, steps).value) && Extends(w, PerformAll(log, w, steps).value)
    decreases |steps|
  {
    if steps != [] {
      PerformKeeps(log, w, steps[0]);
      var next := Perform(log, w, steps[0]).value;
      forall d | d in log ensures Readable(d, next) {
        ExtendsChain(d, w, next);
      }
      PerformAllKeeps(log, next, steps[1..]);
      ExtendsChain(w, next, PerformAll(log, w, steps).value);
    }
  }

  /** Every committed state is consistent, and later ones extend earlier ones. */
  ghost predicate LogOk(log: seq<Db>) {
    && (forall k :: 0 <= k < |log| ==> DbOk(log[k]))
    && (forall i, j :: 0 <= i <= j < |log| ==> Extends(log[i], log[j]))
  }

  /** The invariant holds in every state of every run of any number of servers. */
  lemma {:induction false} RunsAreConsistent(txs: seq<seq<Step>>)
    ensures LogOk(Run(txs))
  {
    if txs != [] {
      var n := |txs| - 1;
      hide DbOk, Extends, PerformAll;
      RunsAreConsistent(txs[..n]);
      var log := Run(txs[..n]);
      var last := log[|log| - 1];
      if PerformAll(log, last, txs[n]).Ok? {
        forall d | d in log ensures Readable(d, last) {
          var k :| 0 <= k < |log| && log[k] == d;
          assert Extends(log[k], log[|log| - 1]);
        }
        PerformAllKeeps(log, last, txs[n]);
        ExtendLog(log, PerformAll(log, last, txs[n]).value);
      } else {
        ExtendLog(log, last);
      }
    }
  }

  lemma ExtendLog(log: seq<Db>, db: Db)
    requires LogOk(log) && log != [] && DbOk(db) && Extends(log[|log| - 1], db)
    ensures LogOk(log + [db])
  {
    hide DbOk, Extends;
    forall i | 0 <= i < |log| ensures Extends(log[i], db) {
      ExtendsChain(log[i], log[|log| - 1], db);
    }
    ExtendsSelf(db);
  }
}
