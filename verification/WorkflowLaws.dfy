/**
 What every run of the workflow engine guarantees, in the terms of its documentation: the history
 is the official state, approvals are used once and gate what follows them, an expired request
 ends the workflow where it waits.
 */
module WorkflowLaws {
  import opened Wrappers
  import opened Workflow
  import opened WorkflowRuns

  /** A state that some run has committed. */
  ghost predicate Reached(txs: seq<seq<Step>>, k: nat, db: Db) {
    k <= |txs| && Run(txs)[k] == db
  }

  lemma ReachedIsOk(txs: seq<seq<Step>>, k: nat, db: Db)
    requires Reached(txs, k, db)
    ensures DbOk(db)
  {
    RunsAreConsistent(txs);
  }

  /** The stored row is the end of one gap-free path of allowed transitions; no update is lost or doubled. */
  lemma HistoryIsTheState(txs: seq<seq<Step>>, k: nat, db: Db, id: string)
    requires Reached(txs, k, db) && id in db.rows
    ensures id in db.history && PathOk(db.history[id])
    ensures var h, row := db.history[id], db.rows[id];
            && row.revision == |h| - 1
            && row.current == h[|h| - 1].to && row.previous == h[|h| - 1].from
            && (row.status == Done <==> row.current == Completed)
            && (row.status == Failed <==> row.current == Rejected)
            && (row.status == Waiting <==>
                  row.current == WaitingDesignApproval || row.current == WaitingCodeApproval)
  {
    ReachedIsOk(txs, k, db);
  }

  /** The revision is the position of the state in the enumeration, or that of the rejected wait plus one. */
  lemma RevisionIsRank(txs: seq<seq<Step>>, k: nat, db: Db, id: string)
    requires Reached(txs, k, db) && id in db.rows
    ensures db.rows[id].current != Rejected ==> db.rows[id].revision == db.rows[id].current.Rank()
    ensures db.rows[id].current == Rejected ==> db.rows[id].revision == 5 || db.rows[id].revision == 9
  {
    ReachedIsOk(txs, k, db);
    CurrentRank(db.rows[id], db.history[id], id);
  }

  /**
   Every history is a beginning of the one linear path; only a final rejection departs from it. So
   each waiting state is entered at most once, and no history has more than eleven rows.
   */
  lemma HistoryIsLinear(txs: seq<seq<Step>>, k: nat, db: Db, id: string)
    requires Reached(txs, k, db) && id in db.rows
    ensures id in db.history && |db.history[id]| <= 11
    ensures forall i :: 0 <= i < |db.history[id]| && !(i == |db.history[id]| - 1 && db.rows[id].current == Rejected) ==>
              db.history[id][i].to == StateAt(i)
  {
    ReachedIsOk(txs, k, db);
    var h := db.history[id];
    PathRanks(h, |h| - 1);
    forall i | 0 <= i < |h| && !(i == |h| - 1 && db.rows[id].current == Rejected) ensures h[i].to == StateAt(i) {
      PathRanks(h, i);
      StateAtRank(h[i].to);
    }
  }

  lemma Related(txs: seq<seq<Step>>, j: nat, k: nat, s: Db, w: Db)
    requires j <= k && Reached(txs, j, s) && Reached(txs, k, w)
    ensures DbOk(s) && DbOk(w) && Extends(s, w)
  {
    RunsAreConsistent(txs);
  }

  /** Committed history is never rewritten: later states extend earlier ones. */
  lemma HistoryOnlyGrows(txs: seq<seq<Step>>, j: nat, k: nat, s: Db, w: Db, id: string)
    requires j <= k && Reached(txs, j, s) && Reached(txs, k, w) && id in s.history
    ensures id in w.history && s.history[id] <= w.history[id]
  {
    Related(txs, j, k, s, w);
  }

  /** The approval of a kind that a long enough history was opened for, and what it says. */
  lemma ApprovalOfHistory(db: Db, id: string, kind: Kind) returns (a: string)
    requires DbOk(db) && id in db.history && |db.history[id]| > OpenedAt(kind)
    ensures a in db.approvals && db.approvals[a].workflowId == id && db.approvals[a].kind == kind
    ensures ApprovalMatches(db.approvals[a], a, db.rows[id].workItemId, db.history[id])
  {
    assert HasApproval(db.approvals, id, kind);
    a :| a in db.approvals && db.approvals[a].workflowId == id && db.approvals[a].kind == kind;
  }

  ghost predicate Names(db: Db, id: string, i: nat, a: string) {
    id in db.history && i < |db.history[id]| && db.history[id][i].triggerId == Some(a)
  }

  lemma NamingRow(db: Db, id: string, i: nat, a: string)
    requires DbOk(db) && Names(db, id, i, a)
    ensures a in db.approvals && db.approvals[a].consumed && db.approvals[a].workflowId == id
    ensures i == OpenedAt(db.approvals[a].kind) + 1
  {
    assert i == 5 || i == 9;
    var b := ApprovalOfHistory(db, id, if i == 5 then Design else CodeChange);
  }

  /** An approval is consumed exactly if one history row names it, and then exactly one does. */
  lemma ConsumedIffNamedOnce(txs: seq<seq<Step>>, k: nat, db: Db, a: string)
    requires Reached(txs, k, db) && a in db.approvals
    ensures db.approvals[a].consumed <==> exists id, i :: Names(db, id, i, a)
    ensures forall id, i, id', i' :: Names(db, id, i, a) && Names(db, id', i', a) ==> id == id' && i == i'
  {
    ReachedIsOk(txs, k, db);
    var ap := db.approvals[a];
    if ap.consumed {
      assert Names(db, ap.workflowId, OpenedAt(ap.kind) + 1, a);
    }
    forall id, i: nat | Names(db, id, i, a) ensures ap.consumed && id == ap.workflowId && i == OpenedAt(ap.kind) + 1 {
      NamingRow(db, id, i, a);
    }
  }

  /** The only approval of this kind was consumed with APPROVE. */
  ghost predicate Approved(db: Db, id: string, kind: Kind) {
    exists a ::
      && a in db.approvals && db.approvals[a].workflowId == id && db.approvals[a].kind == kind
      && db.approvals[a].consumed && db.approvals[a].status == Consumed && db.approvals[a].decision == Some(Approve)
      && forall b :: b in db.approvals && db.approvals[b].workflowId == id && db.approvals[b].kind == kind ==> b == a
  }

  lemma PassedGate(db: Db, id: string, kind: Kind)
    requires DbOk(db) && id in db.history && |db.history[id]| > OpenedAt(kind) + 1
    requires db.history[id][OpenedAt(kind) + 1].to != Rejected
    ensures Approved(db, id, kind)
  {
    var a := ApprovalOfHistory(db, id, kind);
  }

  /** Implementation and everything after it was approved by design, applying also by code review. */
  lemma StatesAreGated(txs: seq<seq<Step>>, k: nat, db: Db, id: string)
    requires Reached(txs, k, db) && id in db.rows && db.rows[id].current != Rejected
    ensures db.rows[id].current.Rank() >= Implementing.Rank() ==> Approved(db, id, Design)
    ensures db.rows[id].current.Rank() >= ApplyingChange.Rank() ==> Approved(db, id, CodeChange)
  {
    ReachedIsOk(txs, k, db);
    GatesPassed(db, id);
  }

  lemma RowIsEnd(db: Db, id: string)
    requires DbOk(db) && id in db.rows
    ensures id in db.history && RowMatches(db.rows[id], db.history[id], id)
    ensures db.rows[id].revision == |db.history[id]| - 1 && |db.history[id]| >= 1
    ensures db.rows[id].current == db.history[id][|db.history[id]| - 1].to
  {
  }

  lemma GatesPassed(db: Db, id: string)
    requires DbOk(db) && id in db.rows && db.rows[id].current != Rejected
    ensures db.rows[id].current.Rank() >= Implementing.Rank() ==> Approved(db, id, Design)
    ensures db.rows[id].current.Rank() >= ApplyingChange.Rank() ==> Approved(db, id, CodeChange)
  {
    hide Allows, ApprovalMatches, OpenedOk, DbOk, Approved;
    RowIsEnd(db, id);
    var h := db.history[id];
    CurrentRank(db.rows[id], h, id);
    if |h| > 5 {
      PathRanks(h, 5);
      PassedGate(db, id, Design);
    }
    if |h| > 9 {
      PathRanks(h, 9);
      PassedGate(db, id, CodeChange);
    }
  }

  /** A rejected workflow ends with the decision that rejected it, and has no other rejected approval. */
  lemma RejectionHasItsApproval(txs: seq<seq<Step>>, k: nat, db: Db, id: string) returns (a: string)
    requires Reached(txs, k, db) && id in db.rows && db.rows[id].current == Rejected
    ensures a in db.approvals && db.approvals[a].workflowId == id && db.approvals[a].decision == Some(Reject)
    ensures id in db.history && |db.history[id]| > 0 && Names(db, id, |db.history[id]| - 1, a)
    ensures forall b | b in db.approvals && db.approvals[b].workflowId == id ::
              db.approvals[b].decision == Some(Reject) ==> b == a
  {
    ReachedIsOk(txs, k, db);
    var h := db.history[id];
    CurrentRank(db.rows[id], h, id);
    a := ApprovalOfHistory(db, id, if |h| == 6 then Design else CodeChange);
    forall b | b in db.approvals && db.approvals[b].workflowId == id && db.approvals[b].decision == Some(Reject)
        ensures b == a {
      var n := OpenedAt(db.approvals[b].kind);
      assert ApprovalMatches(db.approvals[b], b, db.rows[id].workItemId, h);
      PathRanks(h, n + 1);
    }
  }

  /** A workflow opens at most one approval of each kind, so a second request is never refused as a duplicate. */
  lemma OneApprovalPerKind(txs: seq<seq<Step>>, k: nat, db: Db, a: string, b: string)
    requires Reached(txs, k, db) && a in db.approvals && b in db.approvals
    requires db.approvals[a].workflowId == db.approvals[b].workflowId && db.approvals[a].kind == db.approvals[b].kind
    ensures a == b
  {
    ReachedIsOk(txs, k, db);
  }

  /** The approval of this kind is the one that has expired, and the workflow waits for it. */
  ghost predicate WaitsInVain(db: Db, id: string, a: string) {
    && id in db.rows && id in db.history && a in db.approvals
    && db.approvals[a].workflowId == id && db.approvals[a].status == Expired
    && db.rows[id].current == WaitingFor(db.approvals[a].kind)
  }

  lemma StillInVain(s: Db, w: Db, id: string, a: string)
    requires DbOk(s) && DbOk(w) && Extends(s, w) && WaitsInVain(s, id, a)
    ensures WaitsInVain(w, id, a) && w.history[id] == s.history[id] && w.rows[id].current == s.rows[id].current
  {
    hide Allows, ApprovalMatches, RowMatches;
    RowIsEnd(s, id);
    RowIsEnd(w, id);
    assert w.approvals[a] == s.approvals[a];
    UnusedEndsHistory(w, a);
    assert s.history[id] <= w.history[id];
    CurrentRank(s.rows[id], s.history[id], id);
  }

  /** A request that was not consumed is where its workflow's history ends. */
  lemma UnusedEndsHistory(db: Db, a: string)
    requires ApprovalsOk(db) && a in db.approvals && db.approvals[a].status == Expired
    ensures db.approvals[a].workflowId in db.history
    ensures |db.history[db.approvals[a].workflowId]| == OpenedAt(db.approvals[a].kind) + 1
  {
    var id := db.approvals[a].workflowId;
    assert ApprovalMatches(db.approvals[a], a, db.rows[id].workItemId, db.history[id]);
  }

  /** Once its request has expired, a waiting workflow stays where it is in every continuation. */
  lemma ExpiredWaitIsFinal(txs: seq<seq<Step>>, j: nat, k: nat, s: Db, w: Db, id: string, a: string)
    requires j <= k && Reached(txs, j, s) && Reached(txs, k, w) && WaitsInVain(s, id, a)
    ensures WaitsInVain(w, id, a) && w.history[id] == s.history[id] && w.rows[id].current == s.rows[id].current
  {
    Related(txs, j, k, s, w);
    StillInVain(s, w, id, a);
  }

  lemma DecidedStays(s: Db, w: Db, a: string)
    requires ApprovalsOk(s) && Extends(s, w) && a in s.approvals && s.approvals[a].consumed
    ensures a in w.approvals && w.approvals[a] == s.approvals[a]
  {
    assert ApprovalMatches(s.approvals[a], a, s.rows[s.approvals[a].workflowId].workItemId,
        s.history[s.approvals[a].workflowId]);
  }

  /** A decided approval never changes again. */
  lemma DecisionIsFinal(txs: seq<seq<Step>>, j: nat, k: nat, s: Db, w: Db, a: string)
    requires j <= k && Reached(txs, j, s) && Reached(txs, k, w) && a in s.approvals && s.approvals[a].consumed
    ensures a in w.approvals && w.approvals[a] == s.approvals[a]
  {
    Related(txs, j, k, s, w);
    DecidedStays(s, w, a);
  }
}
