/**
 The Hub of the Local Agent (`local-agent/internal/idesession`): it turns a proposal from the
 server into a reviewed diff, remembers it, and applies it when the server reports that the change
 is being applied. `Agent` is the state it works on; `Handles` says what one server event may do.
 */
module Hub {
  import opened Wrappers
  import opened Changes
  import opened UnifiedDiff
  import opened ContentChange
  import opened Proposing
  import opened ExecutionLaws
  import opened ActualDiff
  import opened ProposalStore
  import opened DiskApply
  import opened Applying

  // ----- Messages -----

  /** The string fields of a message; a missing field reads as the empty string. */
  type Data = map<string, string>

  function Text(data: Data, key: string): string { if key in data then data[key] else "" }

  datatype EventKind =
    | Progress | QuestionAsk | ErrorReport | DesignReview | ChangeProposed | BuildResult | TestResult | Other

  /** The proposal inside a change.proposed event, when its JSON can be read. */
  type Drafts = Option<(string, seq<FileChange>)>

  datatype ServerEvent =
    ServerEvent(kind: EventKind, workItemId: string, workflowId: string, data: Data, proposed: Drafts)

  /** What the Hub sends: to the IDE, and (the last two) to the server. */
  datatype Out =
    | Relay(kind: EventKind, data: Data)
    | Refused(code: Code)
    | Skipped
    | DesignShown(data: Data, canApply: bool)
    | DiffReview(view: Data, same: bool, canApply: bool)
    | Applied(changeSetId: string, workspaceId: string, revision: Option<int>)
    | BindSent(bind: Data)
    | CompletedSent(workItemId: string, workspaceId: string, changeSetId: string, same: bool)

  // ----- State -----

  datatype Pending = Pending(
    changeSetId: string, workspaceId: string, approvalId: string, diffHash: string, workItemId: string, same: bool)

  const NOTHING := Pending("", "", "", "", "", false)

  datatype Agent = Agent(
    pending: Pending,
    lastWorkItem: string,
    lastBind: Data,
    table: Table,
    disks: map<string, Workspace>)

  datatype Config = Config(
    host: Host,
    workspaceId: string,
    maxBytes: int,
    registered: bool,               // a workspace registry and a proposal store were given
    connected: bool,                // there is a stream to the server
    oldContent: string -> string)   // old texts when nothing is registered

  // ----- From a server proposal to a stored one -----

  /** The change with its base hash taken from the disk. */
  function FillOne(host: Host, files: Files, maxBytes: int, draft: FileChange): Result<FileChange> {
    var ch := draft.(path := TrimSlash(draft.path), target := TrimSlash(draft.target), baseHash := "");
    if !draft.NeedsBase() then Ok(ch)
    else
      match ReadTextFile(host, files, ch.path, maxBytes)
      case Err(code) => Err(code)
      case Ok(content) => Ok(ch.(baseHash := host.hash(content)))
  }

  function Fill(host: Host, files: Files, maxBytes: int, drafts: seq<FileChange>): Result<seq<FileChange>> {
    if drafts == [] then Ok([])
    else
      match Fill(host, files, maxBytes, drafts[..|drafts| - 1])
      case Err(code) => Err(code)
      case Ok(front) =>
        match FillOne(host, files, maxBytes, drafts[|drafts| - 1])
        case Err(code) => Err(code)
        case Ok(last) => Ok(front + [last])
  }

  /** The outcome when the base hashes were read from `seen` and the proposal was made on `again`. */
  ghost function PreparedOn(
    cfg: Config, ws: Workspace, seen: Files, again: Files, id: string, drafts: seq<FileChange>): Result<Proposal>
  {
    match Fill(cfg.host, seen, cfg.maxBytes, drafts)
    case Err(code) => Err(code)
    case Ok(changes) =>
      ProposeOf(cfg.host, ws.(files := again), ChangeSet(id, ws.id, Unset, changes), cfg.maxBytes)
  }

  ghost predicate Prepares(cfg: Config, s: Agent, id: string, drafts: seq<FileChange>, r: Result<Proposal>) {
    if !cfg.host.isWorkspaceId(cfg.workspaceId) then r == Err(InvalidArgument)
    else if cfg.workspaceId !in s.disks then r == Err(WorkspaceNotFound)
    else
      var ws := s.disks[cfg.workspaceId];
      exists seen, again ::
        Sees(seen, ws.files) && Sees(again, ws.files) && r == PreparedOn(cfg, ws, seen, again, id, drafts)
  }

  // ----- The review of a proposal -----

  const BIND_KEYS := {"approval_id", "work_item_id", "workspace_id", "resource_id", "design_identity"}

  function BindFrom(data: Data, withDiff: bool): Data {
    map k | k in data && (k in BIND_KEYS || (withDiff && k == "diff_hash")) :: data[k]
  }

  function RememberBind(s: Agent, data: Data, withDiff: bool): Agent {
    s.(lastBind := BindFrom(data, withDiff),
       lastWorkItem := if Text(data, "work_item_id") != "" then Text(data, "work_item_id") else s.lastWorkItem)
  }

  function ViewOf(data: Data, id: string, workspaceId: string, diff: string, diffHash: string): Data {
    (data - {"proposed_changes_json"})["change_set_id" := id]["actual_diff" := diff]["diff_hash" := diffHash]
      ["workspace_id" := workspaceId]
  }

  function PendingOf(view: Data, same: bool): Pending {
    Pending(Text(view, "change_set_id"), Text(view, "workspace_id"), Text(view, "approval_id"),
            Text(view, "diff_hash"), Text(view, "work_item_id"), same)
  }

  predicate Complete(p: Pending) {
    p.changeSetId != "" && p.workspaceId != "" && p.approvalId != "" && p.diffHash != ""
  }

  function RememberApply(s: Agent, p: Pending): Agent { if Complete(p) then s.(pending := p) else s }

  function BindMessage(view: Data): Data {
    map k | k in view && k in {"approval_id", "work_item_id", "workspace_id", "resource_id", "diff_hash"} :: view[k]
  }

  /** State and messages once a diff was made and, when something is registered, stored. */
  ghost predicate Reviewed(cfg: Config, s: Agent, view: Data, t: Agent, out: seq<Out>) {
    var same := !HasEditLine(Split(Text(view, "actual_diff")));
    var bound := RememberBind(s, view, true);
    && t == (if cfg.registered then RememberApply(bound, PendingOf(view, same)) else bound)
    && out == (if cfg.connected then [BindSent(BindMessage(view))] else []) + [DiffReview(view, same, false)]
  }

  ghost predicate Reviews(cfg: Config, s: Agent, data: Data, proposed: Drafts, newId: string, t: Agent, out: seq<Out>) {
    match proposed
    case None => t == s && out == [Refused(InvalidArgument)]
    case Some((given, drafts)) =>
      var id := if given == "" then "CS-unknown" else given;
      if !cfg.registered then
        var workspace := if Text(data, "workspace_id") == "" then cfg.workspaceId else Text(data, "workspace_id");
        var diff := JoinedDiff(SortByPath(AllParts(drafts, cfg.oldContent)));
        Reviewed(cfg, s, ViewOf(data, id, workspace, diff, cfg.host.hash(diff)), t, out)
      else
        var csId := if cfg.host.isChangeSetId(id) then id else newId;
        exists r :: Prepares(cfg, s, csId, drafts, r) && Outcome(cfg, s, data, r, t, out)
  }

  ghost predicate Outcome(cfg: Config, s: Agent, data: Data, r: Result<Proposal>, t: Agent, out: seq<Out>) {
    match r
    case Err(code) => t == s && out == [Refused(code)]
    case Ok(p) =>
      Reviewed(cfg, s.(table := PutIn(s.table, p)),
               ViewOf(data, p.changeSet.id, p.changeSet.workspaceId, p.diff, p.diffHash), t, out)
  }

  // ----- The apply -----

  function Covers(p: Pending): ApprovalValidator {
    (approvalId, changeSetId, hash) =>
      if approvalId == "" || changeSetId == "" || hash == "" then Some(ApprovalRequired)
      else if approvalId != p.approvalId || changeSetId != p.changeSetId || hash != p.diffHash
          then Some(ApprovalInvalid)
      else None
  }

  function RequestOf(p: Pending): ApplyRequest {
    ApplyRequest(p.changeSetId, p.workspaceId, p.approvalId, p.diffHash)
  }

  /** Failures of the operating system during one apply that its guarantees depend on. */
  datatype Faults = Faults(look: bool, missed: set<string>, undo: bool)

  /** What `ApplyChanges` promises, as a relation between the states before and after it. */
  ghost predicate Applies(cfg: Config, s: Agent, req: ApplyRequest, approval: ApprovalValidator,
                          r: Result<ApplyResult>, faults: Faults, t: Agent)
  {
    var refusal := Refusal(cfg.host, s.disks.Keys, s.table, approval, req);
    && t == s.(table := t.table, disks := t.disks)
    && t.disks.Keys == s.disks.Keys
    && (refusal.Some? ==> r == Err(refusal.value) && t == s)
    && (refusal == None ==>
          && (forall id :: id in s.disks && id != req.workspaceId ==> t.disks[id] == s.disks[id])
          && t.table == (if r.Err? then s.table else FinishIn(ClaimIn(s.table, req.changeSetId), req.changeSetId))
          && (r.Ok? ==> r.value.changeSetId == req.changeSetId && r.value.workspaceId == req.workspaceId)
          && AppliesTo(cfg, s.disks[req.workspaceId], s.table[req.changeSetId], r, faults, t.disks[req.workspaceId]))
  }

  ghost predicate AppliesTo(
    cfg: Config, ws: Workspace, p: Proposal, r: Result<ApplyResult>, faults: Faults, now: Workspace)
  {
    && now.id == ws.id
    && SameOutside(ws.files, now.files, Region(p.planned))
    && now.revision == (if r.Ok? then ws.revision + 1 else ws.revision)
    && (r.Ok? ==> r.value.revision == now.revision && ListsPlan(cfg.host, p.planned, r.value.files))
    && MissedOf(ws.files, p.planned, faults.missed)
    && (r.Err? && !faults.undo ==> PutBack(ws.files, faults.missed, now.files, p.planned))
    && exists seen ::
         && Sees(seen, ws.files) && (!faults.look ==> seen == ws.files)
         && if Revalidates(cfg.host, ws.(files := seen), p.(applying := true), cfg.maxBytes)
            then r.Ok? ==> now.files == ApplyPlan(ws.files - Staging(p.planned), Carried(p.planned, faults.missed))
            else r.Err? && now.files == ws.files
  }

  function Notice(cfg: Config, workItem: string, workspaceId: string, changeSetId: string, same: bool): seq<Out> {
    if !cfg.connected || workItem == "" || workspaceId == "" then []
    else [CompletedSent(workItem, workspaceId, changeSetId, same)]
  }

  function ApplyMessages(cfg: Config, workItem: string, r: Result<ApplyResult>): seq<Out> {
    match r
    case Err(code) => [Refused(code)]
    case Ok(done) =>
      [Applied(done.changeSetId, done.workspaceId, Some(done.revision))]
      + Notice(cfg, workItem, done.workspaceId, done.changeSetId, false)
  }

  /** Reaction to a workflow stage; the pending apply is used up whatever comes of it. */
  ghost predicate Authorizes(cfg: Config, s: Agent, data: Data, t: Agent, out: seq<Out>) {
    var stage := Text(data, "stage");
    if stage == "REJECTED" then t == s.(pending := NOTHING) && out == []
    else if stage != "APPLYING_CHANGE" || s.pending.changeSetId == "" then t == s && out == []
    else
      var p, taken := s.pending, s.(pending := NOTHING);
      var workItem := if p.workItemId == "" then Text(data, "work_item_id") else p.workItemId;
      if p.same then
        && t == taken
        && out == [Applied(p.changeSetId, p.workspaceId, None)]
                  + Notice(cfg, workItem, p.workspaceId, p.changeSetId, true)
      else if !cfg.registered then t == taken && out == [Skipped]
      else
        exists r, faults ::
          Applies(cfg, taken, RequestOf(p), Covers(p), r, faults, t) && out == ApplyMessages(cfg, workItem, r)
  }

  /** The completed workflow is forgotten, with whatever was still pending. */
  ghost predicate Progresses(cfg: Config, s: Agent, data: Data, t: Agent, out: seq<Out>) {
    if Text(data, "stage") == "COMPLETED"
    then t == s.(lastWorkItem := "", lastBind := map[], pending := NOTHING) && out == []
    else Authorizes(cfg, s, data, t, out)
  }

  // ----- One server event -----

  function Stamped(ev: ServerEvent): Data {
    var data := if ev.workItemId == "" then ev.data else ev.data["work_item_id" := ev.workItemId];
    if ev.workflowId == "" then data else data["workflow_id" := ev.workflowId]
  }

  function Noticed(s: Agent, ev: ServerEvent): Agent {
    if ev.workItemId == "" then s else s.(lastWorkItem := ev.workItemId)
  }

  ghost predicate Handles(cfg: Config, s: Agent, ev: ServerEvent, newId: string, t: Agent, out: seq<Out>) {
    var data, s1 := Stamped(ev), Noticed(s, ev);
    match ev.kind
    case ChangeProposed => Reviews(cfg, s1, data, ev.proposed, newId, t, out)
    case DesignReview => t == RememberBind(s1, data, false) && out == [DesignShown(data, false)]
    case Progress => out != [] && out[0] == Relay(Progress, data) && Progresses(cfg, s1, data, t, out[1..])
    case _ => t == s1 && out == [Relay(ev.kind, data)]
  }

  // ----- The Hub itself -----

  class Session {
    const cfg: Config
    const reg: Registry
    const store: Store
    var pending: Pending
    var lastWorkItem: string
    var lastBind: Data
    var out: seq<Out>

    constructor (cfg: Config, reg: Registry, store: Store)
      ensures this.cfg == cfg && this.reg == reg && this.store == store
      ensures pending == NOTHING && lastWorkItem == "" && lastBind == map[] && out == []
    {
      this.cfg, this.reg, this.store := cfg, reg, store;
      pending, lastWorkItem, lastBind, out := NOTHING, "", map[], [];
    }

    ghost function Disks(): map<string, Workspace>
      reads reg, reg.byId.Values
    {
      map id | id in reg.byId :: reg.byId[id].View()
    }

    ghost function State(): Agent
      reads this, reg, reg.byId.Values, store
    {
      Agent(pending, lastWorkItem, lastBind, store.byId, Disks())
    }

    method Send(message: Out)
      modifies this`out
      ensures out == old(out) + [message]
    {
      out := out + [message];
    }

    method RememberApplyFor(p: Pending)
      modifies this`pending
      ensures State() == RememberApply(old(State()), p)
    {
      if p.changeSetId == "" || p.workspaceId == "" || p.approvalId == "" || p.diffHash == "" {
        return;
      }
      pending := p;
    }

    /** The pending apply, which is used up; None if there is none. */
    method TakePending() returns (p: Option<Pending>)
      modifies this`pending
      ensures pending == (if old(pending).changeSetId == "" then old(pending) else NOTHING)
      ensures p == if old(pending).changeSetId == "" then None else Some(old(pending))
    {
      if pending.changeSetId == "" {
        return None;
      }
      p := Some(pending);
      pending := NOTHING;
    }

    method ClearPending()
      modifies this`pending
      ensures pending == NOTHING
    {
      pending := NOTHING;
    }

    method KeepBind(data: Data, withDiff: bool)
      modifies this`lastBind, this`lastWorkItem
      ensures State() == RememberBind(old(State()), data, withDiff)
    {
      lastBind := BindFrom(data, withDiff);
      if Text(data, "work_item_id") != "" {
        lastWorkItem := Text(data, "work_item_id");
      }
    }

    method FillDrafts(seen: Files, drafts: seq<FileChange>) returns (r: Result<seq<FileChange>>)
      ensures r == Fill(cfg.host, seen, cfg.maxBytes, drafts)
    {
      var filled: seq<FileChange> := [];
      for k := 0 to |drafts|
        invariant Fill(cfg.host, seen, cfg.maxBytes, drafts[..k]) == Ok(filled)
      {
        assert drafts[..k + 1][..k] == drafts[..k];
        var ch := drafts[k].(path := TrimSlash(drafts[k].path), target := TrimSlash(drafts[k].target), baseHash := "");
        if drafts[k].NeedsBase() {
          var read := ReadTextFile(cfg.host, seen, ch.path, cfg.maxBytes);
          if read.Err? {
            FillStops(cfg.host, seen, cfg.maxBytes, drafts, k + 1);
            return Err(read.code);
          }
          ch := ch.(baseHash := cfg.host.hash(read.value));
        }
        filled := filled + [ch];
      }
      assert drafts[..|drafts|] == drafts;
      return Ok(filled);
    }

    /** A look at one registered workspace; the disks stay as they are. */
    method LookAt(id: string) returns (seen: Files)
      requires reg.Valid() && id in reg.byId
      modifies reg.byId.Values
      ensures reg.byId == old(reg.byId) && reg.Valid() && Disks() == old(Disks())
      ensures Sees(seen, Disks()[id].files)
    {
      seen := reg.byId[id].Look();
    }

    /** Makes the proposal on the registered workspace and stores it. */
    method PrepareStoredProposal(id: string, drafts: seq<FileChange>) returns (r: Result<Proposal>)
      requires reg.Valid()
      modifies store, reg.byId.Values
      ensures reg.byId == old(reg.byId) && reg.Valid() && Disks() == old(Disks())
      ensures Prepares(cfg, old(State()), id, drafts, r)
      ensures store.byId == if r.Ok? then PutIn(old(store.byId), r.value) else old(store.byId)
    {
      hide Fill, ProposeOf;
      if !cfg.host.isWorkspaceId(cfg.workspaceId) {
        return Err(InvalidArgument);
      }
      if cfg.workspaceId !in reg.byId {
        return Err(WorkspaceNotFound);
      }
      ghost var ws := Disks()[cfg.workspaceId];
      var seen := LookAt(cfg.workspaceId);
      var changes := FillDrafts(seen, drafts);
      if changes.Err? {
        r := Err(changes.code);
        assert r == PreparedOn(cfg, ws, seen, seen, id, drafts);
        return;
      }
      var again := LookAt(cfg.workspaceId);
      var live := reg.byId[cfg.workspaceId];
      assert live.View() == ws;
      r := Propose(cfg.host, Workspace(live.id, live.revision, again), ChangeSet(id, live.id, Unset, changes.value),
          cfg.maxBytes);
      assert r == PreparedOn(cfg, ws, seen, again, id, drafts);
      if r.Ok? {
        store.Put(r.value);
      }
    }

    method PushDiffReview(data: Data, proposed: Drafts, newId: string)
      requires reg.Valid()
      modifies this, store, reg.byId.Values
      ensures reg.byId == old(reg.byId) && reg.Valid()
      ensures old(out) <= out && Reviews(cfg, old(State()), data, proposed, newId, State(), out[|old(out)|..])
    {
      hide Disks, Prepares, Outcome, Reviewed, ViewOf, SortByPath, AllParts, JoinedDiff;
      if proposed == None {
        Send(Refused(InvalidArgument));
        return;
      }
      var (given, drafts) := proposed.value;
      var id := if given == "" then "CS-unknown" else given;
      if cfg.registered {
        ReviewStored(data, if cfg.host.isChangeSetId(id) then id else newId, drafts);
      } else {
        var workspace := if Text(data, "workspace_id") == "" then cfg.workspaceId else Text(data, "workspace_id");
        var built := FromProposed(cfg.host.hash, id, workspace, drafts, cfg.oldContent);
        var made := built.value;
        PushReview(ViewOf(data, made.changeSetId, made.workspaceId, made.diff, made.diffHash));
      }
    }

    method ReviewStored(data: Data, id: string, drafts: seq<FileChange>)
      requires reg.Valid()
      modifies this, store, reg.byId.Values
      ensures reg.byId == old(reg.byId) && reg.Valid()
      ensures old(out) <= out
      ensures exists r :: Prepares(cfg, old(State()), id, drafts, r)
                          && Outcome(cfg, old(State()), data, r, State(), out[|old(out)|..])
    {
      hide Disks, Prepares, Reviewed, ViewOf;
      ghost var before := State();
      var made := PrepareStoredProposal(id, drafts);
      if made.Err? {
        Send(Refused(made.code));
        assert Outcome(cfg, before, data, made, State(), out[|old(out)|..]);
        return;
      }
      assert State() == before.(table := PutIn(before.table, made.value));
      PushReview(ViewOf(data, made.value.changeSet.id, made.value.changeSet.workspaceId, made.value.diff,
          made.value.diffHash));
      assert Outcome(cfg, before, data, made, State(), out[|old(out)|..]);
    }

    /** Remembers the review, sends its bind to the server and shows it. */
    method PushReview(view: Data)
      modifies this
      ensures old(out) <= out && Reviewed(cfg, old(State()), view, State(), out[|old(out)|..])
    {
      hide Disks, HasEditLine, Split, BindFrom, BindMessage;
      var changed := DiffHasContentChange(Text(view, "actual_diff"));
      KeepBind(view, true);
      if cfg.connected {
        Send(BindSent(BindMessage(view)));
      }
      if cfg.registered {
        RememberApplyFor(PendingOf(view, !changed));
      }
      Send(DiffReview(view, !changed, false));
      assert out[|old(out)|..]
          == (if cfg.connected then [BindSent(BindMessage(view))] else []) + [DiffReview(view, !changed, false)];
    }

    method RunApply(p: Pending) returns (r: Result<ApplyResult>, ghost faults: Faults)
      requires reg.Valid()
      modifies store, reg.byId.Values
      ensures reg.byId == old(reg.byId) && reg.Valid()
      ensures Applies(cfg, old(State()), RequestOf(p), Covers(p), r, faults, State())
    {
      hide SameOutside, Region, PutBack, MissedOf, Carried, Staging, ApplyPlan, Revalidates, ListsPlan, CalmError;
      hide ForcedStop, StoppedAfter;
      ghost var seen;
      r, seen := ApplyChanges(cfg.host, reg, store, Covers(p), RequestOf(p), ApplyOptions(cfg.maxBytes, 0));
      faults := Faults(false, {}, false);
      if p.workspaceId in reg.byId {
        var ws := reg.byId[p.workspaceId];
        faults := Faults(ws.lookFault, ws.missed, ws.undoFault);
      }
    }

    method NotifyApplyCompleted(workItem: string, workspaceId: string, changeSetId: string, same: bool)
      modifies this`out
      ensures out == old(out) + Notice(cfg, workItem, workspaceId, changeSetId, same)
    {
      if !cfg.connected || workItem == "" || workspaceId == "" {
        return;
      }
      Send(CompletedSent(workItem, workspaceId, changeSetId, same));
    }

    method ApplyIfAuthorized(data: Data)
      requires reg.Valid()
      modifies this, store, reg.byId.Values
      ensures reg.byId == old(reg.byId) && reg.Valid()
      ensures old(out) <= out && Authorizes(cfg, old(State()), data, State(), out[|old(out)|..])
    {
      hide Disks, Applies, Covers, RequestOf, ApplyMessages;
      var stage := Text(data, "stage");
      if stage == "REJECTED" {
        ClearPending();
        return;
      }
      if stage != "APPLYING_CHANGE" {
        return;
      }
      var taken := TakePending();
      if taken == None {
        return;
      }
      var p := taken.value;
      var workItem := p.workItemId;
      if workItem == "" {
        workItem := Text(data, "work_item_id");
      }
      if p.same {
        Send(Applied(p.changeSetId, p.workspaceId, None));
        NotifyApplyCompleted(workItem, p.workspaceId, p.changeSetId, true);
        return;
      }
      if !cfg.registered {
        Send(Skipped);
        return;
      }
      var r, faults := RunApply(p);
      Answer(workItem, r);
    }

    /** Tells the user what came of an apply, and the server if it succeeded. */
    method Answer(workItem: string, r: Result<ApplyResult>)
      modifies this`out
      ensures out == old(out) + ApplyMessages(cfg, workItem, r)
    {
      if r.Err? {
        Send(Refused(r.code));
      } else {
        Send(Applied(r.value.changeSetId, r.value.workspaceId, Some(r.value.revision)));
        NotifyApplyCompleted(workItem, r.value.workspaceId, r.value.changeSetId, false);
      }
    }

    method FollowProgress(data: Data)
      requires reg.Valid()
      modifies this, store, reg.byId.Values
      ensures reg.byId == old(reg.byId) && reg.Valid()
      ensures old(out) <= out && Progresses(cfg, old(State()), data, State(), out[|old(out)|..])
    {
      hide Disks, Authorizes;
      ApplyIfAuthorized(data);
      CompletedAppliesNothing(cfg, old(State()), data, State(), out[|old(out)|..]);
      if Text(data, "stage") == "COMPLETED" {
        lastWorkItem := "";
        lastBind := map[];
        ClearPending();
      }
    }

    method ForwardServerEvent(ev: ServerEvent, newId: string)
      requires reg.Valid()
      modifies this, store, reg.byId.Values
      ensures reg.byId == old(reg.byId) && reg.Valid()
      ensures old(out) <= out && Handles(cfg, old(State()), ev, newId, State(), out[|old(out)|..])
    {
      hide Disks, Progresses, Reviews, BindFrom;
      var data := ev.data;
      if ev.workItemId != "" {
        data := data["work_item_id" := ev.workItemId];
        lastWorkItem := ev.workItemId;
      }
      if ev.workflowId != "" {
        data := data["workflow_id" := ev.workflowId];
      }
      assert data == Stamped(ev) && State() == Noticed(old(State()), ev);
      hide Stamped, Noticed;
      if ev.kind == ChangeProposed {
        PushDiffReview(data, ev.proposed, newId);
        return;
      }
      if ev.kind == DesignReview {
        KeepBind(data, false);
        Send(DesignShown(data, false));
        return;
      }
      Send(Relay(ev.kind, data));
      if ev.kind == Progress {
        FollowProgress(data);
        assert out[|old(out)|..][1..] == out[|old(out)| + 1..];
      }
    }
  }

  lemma CompletedAppliesNothing(cfg: Config, s: Agent, data: Data, t: Agent, sent: seq<Out>)
    requires Authorizes(cfg, s, data, t, sent)
    ensures Text(data, "stage") == "COMPLETED" ==> t == s && sent == []
  {
  }

  lemma {:induction false} FillStops(host: Host, files: Files, maxBytes: int, drafts: seq<FileChange>, k: nat)
    requires k <= |drafts| && Fill(host, files, maxBytes, drafts[..k]).Err?
    ensures Fill(host, files, maxBytes, drafts) == Fill(host, files, maxBytes, drafts[..k])
    decreases |drafts|
  {
    if k == |drafts| {
      assert drafts[..k] == drafts;
    } else {
      var front := drafts[..|drafts| - 1];
      assert front[..k] == drafts[..k];
      FillStops(host, files, maxBytes, front, k);
    }
  }
}
