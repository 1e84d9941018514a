/**
 A run of the server from the first request to the decided code change, and a bind request that
 commits late. Every decision in it is one that the intake accepts.
 */
module IntakeSamples {
  import opened Wrappers
  import W = Workflow
  import opened WorkflowRuns
  import E = WorkflowEngine
  import opened Intake
  import opened IntakeRuns
  import opened IntakeLaws

  lemma AfterOneMore(events: seq<Event>, e: Event, sha: string -> string)
    ensures After(events + [e], sha) == Next(After(events, sha), e, sha)
  {
    assert (events + [e])[..|events|] == events;
  }

  // ----- Requests without blanks around their fields -----

  predicate Neat(s: string) { s != "" && s[0] > ' ' && s[|s| - 1] > ' ' }

  lemma NeatIsTrimmed(s: string)
    requires Neat(s)
    ensures Trim(s) == s
  {
  }

  function DataOf(
    approvalId: string, decision: string, item: string, resource: string, identity: string, hash: string): Data
  {
    map["approval_id" := approvalId, "decision" := decision, "work_item_id" := item,
        "workspace_id" := DEFAULT_WORKSPACE,
        "resource_id" := resource, "design_identity" := identity, "diff_hash" := hash]
  }

  lemma KeysDiffer()
    ensures |"approval_id"| == 11 && |"decision"| == 8 && |"work_item_id"| == 12 && |"workspace_id"| == 12
    ensures |"resource_id"| == 11 && |"design_identity"| == 15 && |"diff_hash"| == 9
    ensures "work_item_id" != "workspace_id" && "approval_id" != "resource_id"
  {
    assert "work_item_id"[4] == '_' && "workspace_id"[4] == 's' && "approval_id"[0] == 'a' && "resource_id"[0] == 'r';
  }

  lemma TextsOfData(approvalId: string, decision: string, item: string, resource: string, identity: string,
    hash: string)
    requires Neat(approvalId) && Neat(decision) && Neat(item) && Neat(resource) && Neat(identity) && Neat(hash)
    ensures var data := DataOf(approvalId, decision, item, resource, identity, hash);
            && Text(data, "approval_id") == approvalId && Text(data, "decision") == decision
            && Text(data, "work_item_id") == item && Text(data, "workspace_id") == DEFAULT_WORKSPACE
            && Text(data, "resource_id") == resource && Text(data, "design_identity") == identity
            && Text(data, "diff_hash") == hash
  {
    KeysDiffer();
    hide Trim;
    NeatIsTrimmed(approvalId);
    NeatIsTrimmed(decision);
    NeatIsTrimmed(item);
    NeatIsTrimmed(resource);
    NeatIsTrimmed(identity);
    NeatIsTrimmed(hash);
    NeatIsTrimmed(DEFAULT_WORKSPACE);
  }

  // ----- Single events that succeed -----

  const ENV := W.Env(0, "server", 1, 1, "apr-1")

  /** The stored row, before the gate of this kind, in a consistent store. */
  ghost predicate Before(s: Store, id: string, kind: W.Kind, state: W.State) {
    && DbOk(s.db) && id in s.db.rows && s.db.rows[id].id == id && s.db.rows[id].current == state
    && E.BeforeGate(state, kind)
  }

  function Received(id: string, item: string): Event { ServerStep(Step(DoReceive(id, item), ENV)) }

  lemma ReceiveWorks(id: string, item: string, sha: string -> string)
    ensures var s := After([Received(id, item)], sha);
            && Before(s, id, W.Design, W.Received) && s.db.rows[id].workItemId == item
            && s.db.approvals == map[] && s.binds == map[] && s.workspaces == map[] && s.designs == map[]
  {
    AfterOneMore([], Received(id, item), sha);
    assert [] + [Received(id, item)] == [Received(id, item)];
    RunKeepsTables([Received(id, item)], sha);
  }

  function Advance(id: string, to: W.State, env: W.Env): Event { ServerStep(Step(DoTransition(id, to, Own), env)) }

  lemma AdvanceWorks(events: seq<Event>, sha: string -> string, id: string, kind: W.Kind, state: W.State, env: W.Env)
    requires Before(After(events, sha), id, kind, state) && env.newApprovalId !in After(events, sha).db.approvals
    ensures W.NextLinear(state).Some?
    ensures var next := W.NextLinear(state).value;
            var s, t := After(events, sha), After(events + [Advance(id, next, env)], sha);
            && t == s.(db := t.db) && DbOk(t.db)
            && id in t.db.rows && t.db.rows[id].workItemId == s.db.rows[id].workItemId
            && (next != W.WaitingFor(kind) ==> Before(t, id, kind, next) && t.db.approvals == s.db.approvals)
            && (next == W.WaitingFor(kind) ==>
                  && E.AtGate(t.db, id, kind, env.newApprovalId)
                  && t.db.approvals.Keys == s.db.approvals.Keys + {env.newApprovalId})
  {
    hide DbOk, W.Transition, W.Receive, W.Decide, W.CompleteAfterApply, E.AtGate, E.BeforeGate, After, Extends;
    var s := After(events, sha);
    var next := AdvanceRow(s, id, kind, state, env);
    AfterOneMore(events, Advance(id, next, env), sha);
    EventKeepsTables(s, Advance(id, next, env), sha);
    ItemKept(s.db, After(events + [Advance(id, next, env)], sha).db, id);
  }

  lemma AdvanceRow(s: Store, id: string, kind: W.Kind, state: W.State, env: W.Env) returns (next: W.State)
    requires Before(s, id, kind, state) && env.newApprovalId !in s.db.approvals
    ensures W.NextLinear(state) == Some(next) && W.Transition(s.db, s.db, id, next, env).Ok?
    ensures var (db, row) := W.Transition(s.db, s.db, id, next, env).value;
            && id in db.rows && db.rows[id].id == id && db.rows[id].current == next
            && (next != W.WaitingFor(kind) ==> E.BeforeGate(next, kind) && db.approvals == s.db.approvals)
            && (next == W.WaitingFor(kind) ==>
                  && E.AtGate(db, id, kind, env.newApprovalId)
                  && db.approvals.Keys == s.db.approvals.Keys + {env.newApprovalId})
  {
    HasHistory(s.db, id);
    hide DbOk, W.ApplyTransition, E.AtGate;
    E.LinearStep(s.db, s.db.rows[id], kind, env);
    next := W.NextLinear(state).value;
    TransitionShape(s.db, s.db.rows[id], next, W.Engine, None, env);
  }

  lemma HasHistory(db: W.Db, id: string)
    requires DbOk(db) && id in db.rows
    ensures id in db.history
  {
  }

  lemma ItemKept(s: W.Db, t: W.Db, id: string)
    requires Extends(s, t) && id in s.rows
    ensures id in t.rows && t.rows[id].workItemId == s.rows[id].workItemId
  {
  }

  // ----- The two gates -----

  const FLOW := "wf-1"
  const ITEM := "wi-1"
  const SHA: string -> string := text => "h" + text

  /** A workflow that waits at this gate, with nothing stored for its work item but `binds`. */
  ghost predicate Waits(s: Store, kind: W.Kind, a: string) {
    && DbOk(s.db) && E.AtGate(s.db, FLOW, kind, a) && a in s.db.approvals && FLOW in s.db.rows &&
        s.db.rows[FLOW].workItemId == ITEM
    && s.workspaces == map[] && s.designs == map[]
  }

  function ToDesignGate(): seq<Event> {
    [] + [Received(FLOW, ITEM)] + [Advance(FLOW, W.Classifying, ENV)] + [Advance(FLOW, W.DiscoveringContext, ENV)]
    + [Advance(FLOW, W.Designing, ENV)] + [Advance(FLOW, W.WaitingDesignApproval, ENV)]
  }

  lemma DesignGateIsReached()
    ensures var s := After(ToDesignGate(), SHA);
            Waits(s, W.Design, "apr-1") && s.db.approvals.Keys == {"apr-1"} && s.binds == map[]
  {
    hide DbOk, After, E.AtGate, E.BeforeGate;
    ReceiveWorks(FLOW, ITEM, SHA);
    var e1 := [] + [Received(FLOW, ITEM)];
    assert e1 == [Received(FLOW, ITEM)];
    AdvanceWorks(e1, SHA, FLOW, W.Design, W.Received, ENV);
    var e2 := e1 + [Advance(FLOW, W.Classifying, ENV)];
    AdvanceWorks(e2, SHA, FLOW, W.Design, W.Classifying, ENV);
    var e3 := e2 + [Advance(FLOW, W.DiscoveringContext, ENV)];
    AdvanceWorks(e3, SHA, FLOW, W.Design, W.DiscoveringContext, ENV);
    var e4 := e3 + [Advance(FLOW, W.Designing, ENV)];
    AdvanceWorks(e4, SHA, FLOW, W.Design, W.Designing, ENV);
    assert {} + {"apr-1"} == {"apr-1"};
  }

  /** The request a workflow waits for, as the invariant has it. */
  lemma GateApproval(s: Store, kind: W.Kind, a: string)
    requires Waits(s, kind, a)
    ensures var ap := s.db.approvals[a];
            && ap.workItemId == ITEM && ap.resourceId == W.ResourceOf(kind, ITEM) && !ap.consumed && ap.id == a
            && ap.kind == kind && ap.status == W.Requested && ITEM in s.db.items && FLOW in s.db.history
  {
    hide W.Allows;
    assert ApprovalMatches(s.db.approvals[a], a, s.db.rows[FLOW].workItemId, s.db.history[FLOW]);
  }

  /** A clock before every deadline of this request. */
  function Early(ap: W.Approval): int { if ap.expiresAt.Some? then ap.expiresAt.value - 1 else 0 }

  lemma DecideWorks(s: Store, kind: W.Kind, a: string, decision: W.Decision, env: W.Env)
    requires Waits(s, kind, a) && env.now == Early(s.db.approvals[a])
    ensures W.RequireUsable(s.db.approvals, a, env.now) == W.Ok(s.db.approvals[a])
    ensures W.Decide(s.db, s.db, s.db, a, decision, env).Ok?
    ensures var (db, row) := W.Decide(s.db, s.db, s.db, a, decision, env).value;
            && row.current == TargetOf(kind, decision) && row.id == FLOW && row.workItemId == ITEM
            && FLOW in db.rows && db.rows[FLOW] == row
            && db.approvals == s.db.approvals[a := Decided(s.db.approvals[a], decision)]
  {
    GateApproval(s, kind, a);
    EngineDecides(s.db, a, decision, env);
  }

  function Approve(kind: W.Kind, a: string, hash: string): Data {
    DataOf(a, "APPROVE", ITEM, W.ResourceOf(kind, ITEM), SHA(""), hash)
  }

  lemma ApproveTexts(kind: W.Kind, a: string, hash: string)
    requires Neat(a) && Neat(hash)
    ensures var data := Approve(kind, a, hash);
            && Text(data, "approval_id") == a && Text(data, "decision") == "APPROVE" &&
                Text(data, "work_item_id") == ITEM
            && Text(data, "workspace_id") == DEFAULT_WORKSPACE && Text(data, "resource_id") == W.ResourceOf(kind, ITEM)
            && Text(data, "design_identity") == SHA("") && Text(data, "diff_hash") == hash
            && W.ResourceOf(kind, ITEM) != ""
  {
    var resource := W.ResourceOf(kind, ITEM);
    assert resource != "" && resource[0] == 'c' && resource[|resource| - 1] == 't';
    assert SHA("") == "h" + "" && ("h" + "")[0] == 'h';
    TextsOfData(a, "APPROVE", ITEM, resource, SHA(""), hash);
  }

  lemma ChecksPassed(s: Store, data: Data, env: W.Env)
    requires DecisionComplete(data) && Text(data, "decision") == "APPROVE" &&
             Text(data, "approval_id") in s.db.approvals
    requires var ap := s.db.approvals[Text(data, "approval_id")];
             && W.RequireUsable(s.db.approvals, Text(data, "approval_id"), env.now) == W.Ok(ap)
             && Text(data, "work_item_id") == ap.workItemId && Text(data, "resource_id") == ap.resourceId
             && Text(data, "workspace_id") == WorkspaceOf(s.workspaces, ap.workItemId) && Confirmed(s, ap, data, SHA)
    ensures Decide(s, data, env, SHA).0
            == s.(db := DecideConfirmed(s.db, Text(data, "approval_id"), W.Approve, env).0)
  {
    hide DecisionComplete, Text, Confirmed, W.RequireUsable, WorkspaceOf, DecideConfirmed;
    assert "APPROVE"[0] != "REJECT"[0];
  }

  lemma IsConfirmed(s: Store, kind: W.Kind, a: string, hash: string)
    requires Waits(s, kind, a) && Neat(a) && Neat(hash)
    requires kind == W.CodeChange ==> BoundHash(s.binds, ITEM, a, W.ResourceOf(kind, ITEM)) == Some(hash)
    ensures Confirmed(s, s.db.approvals[a], Approve(kind, a, hash), SHA)
  {
    ApproveTexts(kind, a, hash);
    GateApproval(s, kind, a);
    hide DbOk, E.AtGate, Approve, Text, BoundHash, W.ResourceOf;
    assert s.db.approvals[a].resourceId !in s.designs;
  }

  /** The decision reaches the engine: every check of the intake is passed. */
  lemma DecisionPasses(s: Store, kind: W.Kind, a: string, hash: string, env: W.Env)
    requires Waits(s, kind, a) && env.now == Early(s.db.approvals[a]) && Neat(a) && Neat(hash)
    requires kind == W.CodeChange ==> BoundHash(s.binds, ITEM, a, W.ResourceOf(kind, ITEM)) == Some(hash)
    ensures Decide(s, Approve(kind, a, hash), env, SHA).0 == s.(db := DecideConfirmed(s.db, a, W.Approve, env).0)
  {
    hide DbOk, E.AtGate, W.Decide, DecideConfirmed, Decide, Approve, Text, BoundHash, W.ResourceOf, W.RequireUsable,
        Early, Confirmed;
    ApproveTexts(kind, a, hash);
    GateApproval(s, kind, a);
    DecideWorks(s, kind, a, W.Approve, env);
    IsConfirmed(s, kind, a, hash);
    assert WorkspaceOf(s.workspaces, ITEM) == DEFAULT_WORKSPACE && DEFAULT_WORKSPACE != "" && ITEM != "" &&
        "APPROVE" != "";
    ChecksPassed(s, Approve(kind, a, hash), env);
  }

  lemma ConfirmedDesign(s: Store, env: W.Env)
    requires Waits(s, W.Design, "apr-1") && s.db.approvals.Keys == {"apr-1"}
    requires env.now == Early(s.db.approvals["apr-1"]) && env.newApprovalId == "apr-2"
    ensures var db := DecideConfirmed(s.db, "apr-1", W.Approve, env).0;
            && DbOk(db) && E.AtGate(db, FLOW, W.CodeChange, "apr-2") && "apr-2" in db.approvals && Extends(s.db, db)
  {
    hide DbOk, W.Decide, E.Drive, E.AtGate, Extends, Early, E.BeforeGate;
    DecideWorks(s, W.Design, "apr-1", W.Approve, env);
    ConfirmedKeeps(s.db, "apr-1", W.Approve, env);
    ExtendsSelf(s.db);
    DecideKeeps(s.db, s.db, s.db, "apr-1", W.Approve, env);
    ImplementingIsBefore();
    var (db, row) := W.Decide(s.db, s.db, s.db, "apr-1", W.Approve, env).value;
    assert "apr-2" !in db.approvals by { assert "apr-1"[4] != "apr-2"[4]; }
    E.DriveReachesGate(db, row, W.CodeChange, env);
    GateHasApproval(E.Drive(db, row, W.WaitingCodeApproval, env).value.0, W.CodeChange, "apr-2");
  }

  lemma GateHasApproval(db: W.Db, kind: W.Kind, a: string)
    requires E.AtGate(db, FLOW, kind, a)
    ensures a in db.approvals
  {
  }

  /** An approved design goes on to the code gate in the same request. */
  lemma DesignDecisionWorks(events: seq<Event>, env: W.Env)
    requires Waits(After(events, SHA), W.Design, "apr-1") && After(events, SHA).db.approvals.Keys == {"apr-1"}
    requires env.now == Early(After(events, SHA).db.approvals["apr-1"]) && env.newApprovalId == "apr-2"
    ensures var s := After(events + [DecideApproval(Approve(W.Design, "apr-1", "-"), env)], SHA);
            Waits(s, W.CodeChange, "apr-2") && s.binds == After(events, SHA).binds
  {
    hide DbOk, E.AtGate, After, DecideConfirmed, Approve, Decide, Early, SHA;
    var s, data := After(events, SHA), Approve(W.Design, "apr-1", "-");
    AfterOneMore(events, DecideApproval(data, env), SHA);
    DecisionPasses(s, W.Design, "apr-1", "-", env);
    ConfirmedDesign(s, env);
    ItemKept(s.db, DecideConfirmed(s.db, "apr-1", W.Approve, env).0, FLOW);
  }

  // ----- The bind, the decision and the late bind -----

  function Binding(hash: string): Data { DataOf("apr-2", "-", ITEM, W.ResourceOf(W.CodeChange, ITEM), "-", hash) }

  lemma BindingTexts(hash: string)
    requires Neat(hash)
    ensures var data := Binding(hash);
            && Text(data, "approval_id") == "apr-2" && Text(data, "work_item_id") == ITEM
            && Text(data, "workspace_id") == DEFAULT_WORKSPACE
            && Text(data, "resource_id") == W.ResourceOf(W.CodeChange, ITEM) != "" && Text(data, "diff_hash") == hash
  {
    var resource := W.ResourceOf(W.CodeChange, ITEM);
    assert resource != "" && resource[0] == 'c' && resource[|resource| - 1] == 't';
    TextsOfData("apr-2", "-", ITEM, resource, "-", hash);
  }

  lemma BindWorks(events: seq<Event>, hash: string)
    requires Waits(After(events, SHA), W.CodeChange, "apr-2") && Neat(hash)
    ensures var s := After(events + [BindAgentDiff(Binding(hash))], SHA);
            && Waits(s, W.CodeChange, "apr-2") && s.db == After(events, SHA).db
            && BoundHash(s.binds, ITEM, "apr-2", W.ResourceOf(W.CodeChange, ITEM)) == Some(hash)
  {
    var s := After(events, SHA);
    AfterOneMore(events, BindAgentDiff(Binding(hash)), SHA);
    BindingTexts(hash);
    GateApproval(s, W.CodeChange, "apr-2");
    NeatIsTrimmed(hash);
    hide DbOk, E.AtGate, After, Binding, Text, Trim, W.ResourceOf;
  }

  lemma CodeDecisionWorks(events: seq<Event>, hash: string, env: W.Env)
    requires Waits(After(events, SHA), W.CodeChange, "apr-2") && Neat(hash)
    requires BoundHash(After(events, SHA).binds, ITEM, "apr-2", W.ResourceOf(W.CodeChange, ITEM)) == Some(hash)
    requires env.now == Early(After(events, SHA).db.approvals["apr-2"])
    ensures var s, t := After(events, SHA),
            After(events + [DecideApproval(Approve(W.CodeChange, "apr-2", hash), env)], SHA);
            && CodeConsumed(t.db, "apr-2") && t == s.(db := t.db)
            && t.db.approvals["apr-2"].workItemId == ITEM
            && t.db.approvals["apr-2"].resourceId == W.ResourceOf(W.CodeChange, ITEM)
  {
    var s := After(events, SHA);
    AfterOneMore(events, DecideApproval(Approve(W.CodeChange, "apr-2", hash), env), SHA);
    GateApproval(s, W.CodeChange, "apr-2");
    DecideWorks(s, W.CodeChange, "apr-2", W.Approve, env);
    DecisionPasses(s, W.CodeChange, "apr-2", hash, env);
    hide DbOk, E.AtGate, After, Approve, W.Decide, Decide, Early, SHA, W.ResourceOf, BoundHash;
  }

  lemma ConsumedIsStored(db: W.Db, a: string)
    requires CodeConsumed(db, a)
    ensures a in db.approvals
  {
  }

  lemma LateIsComplete(t: Store)
    requires "apr-2" in t.db.approvals && t.workspaces == map[]
    requires t.db.approvals["apr-2"].workItemId == ITEM
    requires t.db.approvals["apr-2"].resourceId == W.ResourceOf(W.CodeChange, ITEM)
    ensures BindsFor(t, "apr-2", Binding("h2"))
  {
    BindingTexts("h2");
    hide Binding, Text, W.ResourceOf;
    assert WorkspaceOf(t.workspaces, ITEM) == DEFAULT_WORKSPACE && DEFAULT_WORKSPACE != "" && ITEM != "";
  }

  /**
   A run in which "h1" is bound and approved, and a bind of "h2" that read the approval before the
   decision: it is accepted, and the stored hash is no longer the approved one.
   */
  lemma ApprovedHashIsReplaced() returns (events: seq<Event>, j: nat)
    ensures j <= |events| && CodeConsumed(After(events, SHA).db, "apr-2")
    ensures var t, read, resource := After(events, SHA), After(events[..j], SHA).db, W.ResourceOf(W.CodeChange, ITEM);
            && BoundHash(t.binds, ITEM, "apr-2", resource) == Some("h1")
            && BindDiff(t, read, Binding("h2")).1.Accepted?
            && BoundHash(BindDiff(t, read, Binding("h2")).0.binds, ITEM, "apr-2", resource) == Some("h2")
  {
    hide DbOk, E.AtGate, After, Binding, Approve, Early, BoundHash, BindDiff, CodeConsumed, W.ResourceOf, SHA;
    DesignGateIsReached();
    var e5 := ToDesignGate();
    var env5 := W.Env(Early(After(e5, SHA).db.approvals["apr-1"]), "server", 1, 1, "apr-2");
    DesignDecisionWorks(e5, env5);
    var e6 := e5 + [DecideApproval(Approve(W.Design, "apr-1", "-"), env5)];
    BindWorks(e6, "h1");
    var e7 := e6 + [BindAgentDiff(Binding("h1"))];
    var env7 := W.Env(Early(After(e7, SHA).db.approvals["apr-2"]), "server", 1, 1, "apr-3");
    CodeDecisionWorks(e7, "h1", env7);
    events, j := e7 + [DecideApproval(Approve(W.CodeChange, "apr-2", "h1"), env7)], |e7|;
    assert events[..j] == e7;
    BindingTexts("h2");
    GateApproval(After(e7, SHA), W.CodeChange, "apr-2");
    ConsumedIsStored(After(events, SHA).db, "apr-2");
    LateIsComplete(After(events, SHA));
    LateBindIff(events, SHA, j, "apr-2", Binding("h2"));
  }
}
