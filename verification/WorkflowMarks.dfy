/**
 What the columns of a workflow that play no part in its control mean: the resume state, the
 triggers in the history, the status of the work item and the deadlines of approvals, in every
 committed state of every run; and when a decision can succeed.
 */
module WorkflowMarks {
  import opened Wrappers
  import opened Workflow
  import opened WorkflowRuns
  import WorkflowLaws

  // ----- The marks -----

  /** The waiting state that a history of this length entered last. */
  function LastWait(n: nat): Option<State> {
    if n > 8 then Some(WaitingCodeApproval) else if n > 4 then Some(WaitingDesignApproval) else None
  }

  /** Decisions are marked as the user's, the first row and a completed apply as the system's. */
  ghost predicate TriggersTell(h: seq<Hop>) {
    && (|h| > 0 ==> h[0].trigger == System)
    && forall k :: 0 < k < |h| ==>
         && (h[k].trigger == UserDecision <==> h[k].triggerId.Some?)
         && (h[k].trigger == System ==> h[k].to == Completed)
  }

  /** The last row of this history completed the workflow after an apply. */
  ghost predicate EndsInApply(h: seq<Hop>) { h != [] && h[|h| - 1].to == Completed && h[|h| - 1].trigger == System }

  ghost predicate RowMarked(row: Row, h: seq<Hop>, items: map<string, ItemStatus>) {
    && row.resume == LastWait(|h|) && TriggersTell(h)
    && row.workItemId in items && (items[row.workItemId] == ItemCompleted <==> EndsInApply(h))
  }

  ghost predicate RowsMarked(db: Db) {
    forall id :: id in db.rows && id in db.history ==> RowMarked(db.rows[id], db.history[id], db.items)
  }

  ghost predicate DeadlinesSet(approvals: map<string, Approval>) {
    forall a :: a in approvals ==> approvals[a].expiresAt.Some?
  }

  ghost predicate Marked(db: Db) { RowsMarked(db) && DeadlinesSet(db.approvals) }

  // ----- Every operation keeps them -----

  /** A new last row: what it has to look like. */
  lemma MarkedHop(w: Db, v: Db, id: string, row: Row, hop: Hop)
    requires DbOk(w) && Marked(w) && id in w.rows && id in w.history
    requires v.rows == w.rows[id := row] && v.history == w.history[id := w.history[id] + [hop]]
    requires row.workItemId == w.rows[id].workItemId && row.resume == LastWait(|w.history[id]| + 1)
    requires (hop.trigger == UserDecision <==> hop.triggerId.Some?) && (hop.trigger == System ==> hop.to == Completed)
    requires v.items == if hop.trigger == System then w.items[row.workItemId := ItemCompleted] else w.items
    requires !EndsInApply(w.history[id]) && DeadlinesSet(v.approvals)
    ensures Marked(v)
  {
    NotEmpty(w, id);
    hide RowMarked;
    forall i | i in v.rows && i in v.history ensures RowMarked(v.rows[i], v.history[i], v.items) {
      if i == id {
        LastRowMarked(w.rows[id], w.history[id], w.items, row, hop, v.items);
      } else {
        OtherItem(w, id, i);
        OtherRowMarked(w.rows[i], w.history[i], w.items, row.workItemId);
      }
      hide DbOk;
    }
  }

  lemma LastRowMarked(
    was: Row, h: seq<Hop>, items: map<string, ItemStatus>, row: Row, hop: Hop, now: map<string, ItemStatus>)
    requires RowMarked(was, h, items) && h != [] && !EndsInApply(h)
    requires row.workItemId == was.workItemId && row.resume == LastWait(|h| + 1)
    requires (hop.trigger == UserDecision <==> hop.triggerId.Some?) && (hop.trigger == System ==> hop.to == Completed)
    requires now == if hop.trigger == System then items[row.workItemId := ItemCompleted] else items
    ensures RowMarked(row, h + [hop], now)
  {
    HopTells(h, hop);
    hide TriggersTell, LastWait;
  }

  lemma OtherRowMarked(row: Row, h: seq<Hop>, items: map<string, ItemStatus>, item: string)
    requires RowMarked(row, h, items) && row.workItemId != item
    ensures RowMarked(row, h, items[item := ItemCompleted])
  {
    hide TriggersTell, LastWait;
  }

  lemma OtherItem(w: Db, id: string, i: string)
    requires DbOk(w) && id in w.rows && i in w.rows && i != id
    ensures w.rows[i].workItemId != w.rows[id].workItemId
  {
  }

  lemma HopTells(h: seq<Hop>, hop: Hop)
    requires h != [] && TriggersTell(h)
    requires (hop.trigger == UserDecision <==> hop.triggerId.Some?) && (hop.trigger == System ==> hop.to == Completed)
    ensures TriggersTell(h + [hop])
    ensures EndsInApply(h + [hop]) <==> hop.trigger == System
  {
  }

  lemma NotEmpty(w: Db, id: string)
    requires DbOk(w) && id in w.rows
    ensures id in w.history && |w.history[id]| > 0
  {
    WorkflowLaws.RowIsEnd(w, id);
  }

  lemma LastWaitMoves(from: State, n: nat, to: State)
    requires Allows(Some(from), to) && n > 0 && (from != Rejected ==> from.Rank() == n - 1)
    ensures LastWait(n + 1) == if to.IsWaiting() then Some(to) else LastWait(n)
    ensures from != Completed
  {
  }

  /** Entering a state sets the resume column as the length of the history has it. */
  lemma ResumeAfter(s: Db, w: Db, id: string, to: State)
    requires DbOk(s) && DbOk(w) && Extends(s, w) && Marked(s) && id in s.rows && id in w.rows
    requires s.rows[id].revision == w.rows[id].revision && Allows(Some(s.rows[id].current), to)
    ensures id in w.history && id in s.history && w.history[id] == s.history[id]
    ensures (if to.IsWaiting() then Some(to) else s.rows[id].resume) == LastWait(|w.history[id]| + 1)
    ensures !EndsInApply(w.history[id])
  {
    hide Allows, ApprovalsOk, OpenedOk, OnePerKind, ItemsSeparate, TriggersMatch, TriggersTell, LastWait, PathOk;
    UnmovedRow(s, w, id);
    WorkflowLaws.RowIsEnd(w, id);
    WorkflowLaws.RowIsEnd(s, id);
    CurrentRank(s.rows[id], s.history[id], id);
    LastWaitMoves(s.rows[id].current, |s.history[id]|, to);
  }

  /** The common step keeps the marks, whatever was done to the approvals before it. */
  lemma TransitionMarks(
    s: Db, w: Db, id: string, approvals: map<string, Approval>, to: State, trigger: Trigger,
    triggerId: Option<string>, env: Env)
    requires DbOk(w) && Readable(s, w) && Marked(s) && Marked(w) && id in s.rows && DeadlinesSet(approvals)
    requires (trigger == UserDecision <==> triggerId.Some?) && (trigger == System ==> to == Completed)
    requires ApplyTransition(w.(approvals := approvals), s.rows[id], to, trigger, triggerId, env).Ok?
    ensures var v := ApplyTransition(w.(approvals := approvals), s.rows[id], to, trigger, triggerId, env).value.0;
            Marked(if trigger == System then v.(items := v.items[s.rows[id].workItemId := ItemCompleted]) else v)
  {
    hide DbOk, Extends, RowsMarked, LastWait, ApplyTransition;
    ReadsRow(s, w, id);
    TransitionShape(w.(approvals := approvals), s.rows[id], to, trigger, triggerId, env);
    ResumeAfter(s, w, id, to);
    var v := ApplyTransition(w.(approvals := approvals), s.rows[id], to, trigger, triggerId, env).value.0;
    var row := UpdatedRow(s.rows[id], to, env).(workItemId := w.rows[id].workItemId);
    var next := if trigger == System then v.(items := v.items[s.rows[id].workItemId := ItemCompleted]) else v;
    MarkedHop(w, next, id, row, Hop(Some(s.rows[id].current), to, trigger, triggerId));
  }

  lemma ReadsRow(s: Db, w: Db, id: string)
    requires DbOk(s) && DbOk(w) && Extends(s, w) && id in s.rows
    ensures s.rows[id].id == id && id in w.rows && id in w.history && s.rows[id].workItemId == w.rows[id].workItemId
  {
    ReadRowId(s, w, id);
  }

  lemma DecideMarks(sa: Db, sr: Db, w: Db, a: string, decision: Decision, env: Env)
    requires DbOk(w) && Readable(sa, w) && Readable(sr, w) && Marked(sr) && Marked(w)
    requires Decide(w, sa, sr, a, decision, env).Ok?
    ensures Marked(Decide(w, sa, sr, a, decision, env).value.0)
  {
    hide DbOk, Decide, ApplyTransition;
    DecideShape(sa, sr, w, a, decision, env);
    var ap := w.approvals[a];
    TransitionMarks(sr, w, ap.workflowId, w.approvals[a := Decided(ap, decision)], TargetOf(ap.kind, decision),
                    UserDecision, Some(a), env);
  }

  lemma ReceiveMarks(w: Db, id: string, item: string, env: Env)
    requires DbOk(w) && Marked(w) && Receive(w, id, item, env).Ok?
    ensures Marked(Receive(w, id, item, env).value.0)
  {
    ReceiveShape(w, id, item, env);
    var v := Receive(w, id, item, env).value.0;
    forall i | i in v.rows && i in v.history ensures RowMarked(v.rows[i], v.history[i], v.items) {
      if i != id {
        NotEmpty(w, i);
        assert RowMarked(w.rows[i], w.history[i], w.items);
      }
      hide RowsMarked, DbOk;
    }
  }

  lemma PlainMarks(w: Db, s: Step)
    requires Marked(w) && (s.op.DoExpire? || s.op.DoAcquireLease? || s.op.DoClearLease?)
    requires Perform([], w, s).Ok?
    ensures Marked(Perform([], w, s).value)
  {
  }

  lemma PerformMarks(log: seq<Db>, w: Db, s: Step)
    requires DbOk(w) && Marked(w) && forall d :: d in log ==> Readable(d, w) && Marked(d)
    requires Perform(log, w, s).Ok?
    ensures Marked(Perform(log, w, s).value)
  {
    ExtendsSelf(w);
    hide DbOk, Extends, Marked, Receive, ApplyTransition, Decide, MarkExpired;
    assert forall source: Source :: Readable(ReadFrom(log, w, source), w) && Marked(ReadFrom(log, w, source));
    match s.op
    case DoReceive(wf, item) => ReceiveMarks(w, wf, item, s.env);
    case DoTransition(wf, to, row) =>
      DeadlinesOf(w);
      TransitionMarks(ReadFrom(log, w, row), w, wf, w.approvals, to, Engine, None, s.env);
    case DoDecide(a, decision, approval, row) =>
      DecideMarks(ReadFrom(log, w, approval), ReadFrom(log, w, row), w, a, decision, s.env);
    case DoComplete(wf, row) =>
      DeadlinesOf(w);
      TransitionMarks(ReadFrom(log, w, row), w, wf, w.approvals, Completed, System, None, s.env);
    case _ => PlainMarks(w, s);
  }

  lemma DeadlinesOf(w: Db)
    requires Marked(w)
    ensures DeadlinesSet(w.approvals)
  {
  }

  lemma {:induction false} PerformAllMarks(log: seq<Db>, w: Db, steps: seq<Step>)
    requires DbOk(w) && Marked(w) && forall d :: d in log ==> Readable(d, w) && Marked(d)
    requires PerformAll(log, w, steps).Ok?
    ensures Marked(PerformAll(log, w, steps).value)
    decreases |steps|
  {
    if steps != [] {
      hide DbOk, Extends, Marked, Perform;
      PerformMarks(log, w, steps[0]);
      PerformKeeps(log, w, steps[0]);
      var next := Perform(log, w, steps[0]).value;
      forall d | d in log ensures Readable(d, next) {
        ExtendsChain(d, w, next);
      }
      PerformAllMarks(log, next, steps[1..]);
    }
  }

  lemma {:induction false} RunsAreMarked(txs: seq<seq<Step>>, k: nat)
    requires k <= |txs|
    ensures Marked(Run(txs)[k])
  {
    if txs != [] {
      hide DbOk, Extends, Marked, PerformAll;
      var n := |txs| - 1;
      var log := Run(txs[..n]);
      forall j: nat | j < |log| ensures Marked(log[j]) {
        RunsAreMarked(txs[..n], j);
      }
      RunsAreConsistent(txs[..n]);
      var last := log[|log| - 1];
      forall d | d in log ensures Readable(d, last) && Marked(d) {
        var j :| 0 <= j < |log| && log[j] == d;
        assert Extends(log[j], log[|log| - 1]);
      }
      if PerformAll(log, last, txs[n]).Ok? {
        PerformAllMarks(log, last, txs[n]);
      }
    }
  }

  // ----- What they mean -----

  /**
   The work item is completed exactly when its workflow was completed after an apply. A plain
   transition can complete a workflow as well, and leaves the work item open.
   */
  lemma ItemCompletedIff(txs: seq<seq<Step>>, k: nat, db: Db, id: string)
    requires WorkflowLaws.Reached(txs, k, db) && id in db.rows
    ensures id in db.history && db.history[id] != [] && db.rows[id].workItemId in db.items
    ensures db.items[db.rows[id].workItemId] == ItemCompleted <==>
            db.rows[id].current == Completed && db.history[id][|db.history[id]| - 1].trigger == System
  {
    RunsAreMarked(txs, k);
    WorkflowLaws.ReachedIsOk(txs, k, db);
    WorkflowLaws.RowIsEnd(db, id);
  }

  /** The resume column names the gate that was entered last. */
  lemma ResumeIsLastGate(txs: seq<seq<Step>>, k: nat, db: Db, id: string)
    requires WorkflowLaws.Reached(txs, k, db) && id in db.rows
    ensures db.rows[id].resume == if db.rows[id].revision >= 8 then Some(WaitingCodeApproval)
                                  else if db.rows[id].revision >= 4 then Some(WaitingDesignApproval) else None
  {
    RunsAreMarked(txs, k);
    WorkflowLaws.ReachedIsOk(txs, k, db);
    WorkflowLaws.RowIsEnd(db, id);
  }

  /** Exactly the decisions are the user's in the history, and each of them names its approval. */
  lemma DecisionsAreTheUsers(txs: seq<seq<Step>>, k: nat, db: Db, id: string, i: nat)
    requires WorkflowLaws.Reached(txs, k, db) && id in db.history && i < |db.history[id]|
    ensures db.history[id][i].trigger == UserDecision <==> i == 5 || i == 9
    ensures db.history[id][i].trigger == UserDecision <==> db.history[id][i].triggerId.Some?
    ensures db.history[id][i].trigger == System ==> i == 0 || i == 10
  {
    RunsAreMarked(txs, k);
    WorkflowLaws.ReachedIsOk(txs, k, db);
    TriggersAt(db, id);
    PathRanks(db.history[id], i);
  }

  lemma TriggersAt(db: Db, id: string)
    requires DbOk(db) && Marked(db) && id in db.history
    ensures TriggersMatch(db.history[id]) && TriggersTell(db.history[id]) && PathOk(db.history[id])
  {
    assert id in db.rows && RowMatches(db.rows[id], db.history[id], id);
  }

  /**
   Every request has a deadline, and a step that consumes one runs before it, finds it open and
   records the decision that was asked for.
   */
  lemma ConsumedInTime(txs: seq<seq<Step>>, k: nat, db: Db, log: seq<Db>, s: Step, a: string)
    requires WorkflowLaws.Reached(txs, k, db) && Perform(log, db, s).Ok?
    requires a in Perform(log, db, s).value.approvals && Perform(log, db, s).value.approvals[a].consumed
    requires a in db.approvals && !db.approvals[a].consumed
    ensures s.op.DoDecide? && s.op.approvalId == a && db.approvals[a].status == Requested
    ensures db.approvals[a].expiresAt.Some? && s.env.now < db.approvals[a].expiresAt.value
    ensures Perform(log, db, s).value.approvals[a].decision == Some(s.op.decision)
  {
    RunsAreMarked(txs, k);
    DeadlinesOf(db);
    ConsumedBy(log, db, s, a);
  }

  /** A request out of time is refused as such and, while open, marked; nothing else changes. */
  lemma LateRequestExpires(db: Db, a: string, now: int)
    requires a in db.approvals && db.approvals[a].expiresAt.Some?
    ensures RequireUsable(db.approvals, a, now) == Err(ApprovalExpired) <==> db.approvals[a].expiresAt.value <= now
    ensures var v := MarkExpired(db, a);
            && v == db.(approvals := v.approvals) && v.approvals.Keys == db.approvals.Keys
            && (forall b :: b in db.approvals && b != a ==> v.approvals[b] == db.approvals[b])
            && v.approvals[a] == db.approvals[a].(status := v.approvals[a].status)
            && v.approvals[a].status ==
               if db.approvals[a].status == Requested then Expired else db.approvals[a].status
  {
  }

  /** A new request is the only open one of its kind, for the resource of its work item. */
  lemma RequestIsAlone(db: Db, item: string, id: string, kind: Kind, env: Env)
    requires RequestApproval(db, item, id, kind, env).Ok?
    ensures var v := RequestApproval(db, item, id, kind, env).value;
            && env.newApprovalId !in db.approvals && v == db.(approvals := v.approvals)
            && v.approvals.Keys == db.approvals.Keys + {env.newApprovalId}
            && (forall b :: b in db.approvals ==> v.approvals[b] == db.approvals[b])
            && (forall b | b in v.approvals && v.approvals[b].workflowId == id && v.approvals[b].kind == kind ::
                  v.approvals[b].status == Requested ==> b == env.newApprovalId)
            && v.approvals[env.newApprovalId].resourceId ==
               match kind
               case Design => "ctx://work-items/" + item + "/design/latest"
               case CodeChange => "cs://work-items/" + item + "/latest"
  {
  }

  /** A decision is refused as a mismatch unless the workflow waits for this kind, on this resource. */
  lemma MismatchIff(current: Row, pending: Approval, decision: Decision)
    ensures TargetAfterDecision(current, pending, decision) == Err(ResourceMismatch) <==>
            match pending.kind
            case Design =>
              current.current != WaitingDesignApproval
              || pending.resourceId != "ctx://work-items/" + current.workItemId + "/design/latest"
            case CodeChange =>
              current.current != WaitingCodeApproval
              || pending.resourceId != "cs://work-items/" + current.workItemId + "/latest"
  {
  }

  /** A workflow that waits or has ended is left without a lease; any other step takes one. */
  lemma LeaseAfterStep(
    w: Db, current: Row, to: State, trigger: Trigger, triggerId: Option<string>, env: Env)
    requires ApplyTransition(w, current, to, trigger, triggerId, env).Ok?
    ensures var v := ApplyTransition(w, current, to, trigger, triggerId, env).value.0;
            && current.id in v.rows
            && (to in {WaitingDesignApproval, WaitingCodeApproval, Completed, Rejected} ==>
                  v.rows[current.id].lease == NoLease)
            && (to !in {WaitingDesignApproval, WaitingCodeApproval, Completed, Rejected} ==>
                  v.rows[current.id].lease == HeldBy(env.owner, env.leaseUntil))
  {
  }

  /** A lease is taken exactly when it is free or has run out, and nothing else of the row changes. */
  lemma LeaseTakenIff(db: Db, id: string, env: Env)
    requires id in db.rows
    ensures var v := TryAcquireLease(db, id, env);
            && id in v.rows && v == db.(rows := db.rows[id := db.rows[id].(lease := v.rows[id].lease)])
            && v.rows[id].lease ==
               match db.rows[id].lease
               case NoLease => HeldBy(env.owner, env.leaseUntil)
               case HeldBy(_, until) => if until < env.now then HeldBy(env.owner, env.leaseUntil) else db.rows[id].lease
  {
    assert db.rows[id := db.rows[id]] == db.rows;
  }

  lemma ConsumedBy(log: seq<Db>, w: Db, s: Step, a: string)
    requires Perform(log, w, s).Ok? && a in w.approvals && !w.approvals[a].consumed
    requires a in Perform(log, w, s).value.approvals && Perform(log, w, s).value.approvals[a].consumed
    ensures s.op.DoDecide? && s.op.approvalId == a && w.approvals[a].status == Requested
    ensures w.approvals[a].expiresAt.Some? ==> s.env.now < w.approvals[a].expiresAt.value
    ensures Perform(log, w, s).value.approvals[a].decision == Some(s.op.decision)
  {
    hide ApplyTransition;
    match s.op
    case DoTransition(wf, to, row) =>
      ApprovalsGrow(w, ReadFrom(log, w, row).rows[wf], to, Engine, None, s.env);
    case DoComplete(wf, row) =>
      ApprovalsGrow(w, ReadFrom(log, w, row).rows[wf], Completed, System, None, s.env);
    case DoDecide(id, decision, approval, row) =>
      var pending := ReadFrom(log, w, approval).approvals[id];
      var current := ReadFrom(log, w, row).rows[pending.workflowId];
      var target := TargetAfterDecision(current, pending, decision).value;
      ApprovalsGrow(ConsumeIfRequested(w, id, decision).value, current, target, UserDecision, Some(id), s.env);
    case _ =>
  }

  lemma ApprovalsGrow(w: Db, current: Row, to: State, trigger: Trigger, triggerId: Option<string>, env: Env)
    requires ApplyTransition(w, current, to, trigger, triggerId, env).Ok?
    ensures forall b :: b in w.approvals ==>
              var v := ApplyTransition(w, current, to, trigger, triggerId, env).value.0;
              b in v.approvals && v.approvals[b] == w.approvals[b]
  {
  }
}
