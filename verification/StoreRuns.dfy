/**
 Interleaved applies of stored proposals (`local-agent/internal/workspace/propose.go`,
 `local-agent/internal/workspace/apply.go`). Each thread runs claim, change the disk, then finish
 or abort as separate atomic steps on the shared store and one workspace; others may put proposals
 and edit the disk at any moment.
 */
module StoreRuns {
  import opened Wrappers
  import opened Changes
  import opened ExecutionLaws
  import opened ProposalStore
  import opened DiskApply
  import opened Applying

  /** Where one thread stands in `ApplyChanges`; `p` is the copy of the proposal it has claimed. */
  datatype Thread =
    | Idle
    | Claimed(id: string, p: Proposal)   // holds the claim, disk not changed yet
    | Mutated(id: string)                // disk changed, finish outstanding
    | Failed(id: string)                 // deferred abort outstanding

  datatype Site = Site(host: Host, maxBytes: int)

  /**
   `wins` counts, per change set, its successful applies since its last Put; `overlapped` holds the
   change sets that were Put while some thread was applying them.
   */
  datatype World = World(
    site: Site, disk: Workspace, table: Table, threads: seq<Thread>, wins: map<string, nat>, overlapped: set<string>)

  /**
   `Mutate` is the part under the registry's lock. A success has revalidated the proposal on the
   present disk and put its plan there, unless a probe of the disk went wrong (`blind`).
   */
  datatype Action =
    | Put(p: Proposal)
    | Edit(files: Files)
    | Claim(thread: nat, id: string)
    | Mutate(thread: nat, ok: bool, blind: bool, after: Files)
    | Finish(thread: nat)
    | Abort(thread: nat)

  function Start(n: nat, site: Site, disk: Workspace): World { World(site, disk, map[], seq(n, _ => Idle), map[], {}) }

  function Count(m: map<string, nat>, id: string): nat { if id in m then m[id] else 0 }

  predicate Holds(t: Thread, id: string) { !t.Idle? && t.id == id }

  predicate Held(threads: seq<Thread>, id: string) {
    exists i :: 0 <= i < |threads| && Holds(threads[i], id)
  }

  /** The files after the plan of `p` was put in place. */
  function PlanOn(files: Files, p: Proposal): Files { ApplyPlan(files - Staging(p.planned), p.planned) }

  /** What a successful apply without a wrong probe did. */
  ghost predicate Sound(site: Site, disk: Workspace, p: Proposal, after: Files) {
    Revalidates(site.host, disk, p, site.maxBytes) && after == PlanOn(disk.files, p)
  }

  /** The world after one action, or None when the action is not possible. */
  ghost function Next(w: World, a: Action): Option<World> {
    match a
    case Put(p) =>
      if p.applied || p.applying then None  // proposals come from Propose with both flags down
      else
        var id := p.changeSet.id;
        Some(w.(table := PutIn(w.table, p), wins := w.wins[id := 0],
                overlapped := if Held(w.threads, id) then w.overlapped + {id} else w.overlapped))
    case Edit(files) => Some(w.(disk := w.disk.(files := files)))
    case Claim(i, id) =>
      if i >= |w.threads| || w.threads[i] != Idle then None
      else if Claimable(w.table, id) then
        Some(w.(table := ClaimIn(w.table, id), threads := w.threads[i := Claimed(id, w.table[id].(applying := true))]))
      else Some(w)  // the loser returns its error without a deferred abort
    case Mutate(i, ok, blind, after) =>
      if i >= |w.threads| || !w.threads[i].Claimed? then None
      else if ok && !blind && !Sound(w.site, w.disk, w.threads[i].p, after) then None
      else
        var id := w.threads[i].id;
        Some(w.(disk := w.disk.(files := after, revision := w.disk.revision + if ok then 1 else 0),
                threads := w.threads[i := if ok then Mutated(id) else Thread.Failed(id)]))
    case Finish(i) =>
      if i >= |w.threads| || !w.threads[i].Mutated? then None
      else
        var id := w.threads[i].id;
        if Finishable(w.table, id) then
          Some(w.(table := FinishIn(w.table, id), threads := w.threads[i := Idle],
                  wins := w.wins[id := Count(w.wins, id) + 1]))
        else Some(w.(threads := w.threads[i := Thread.Failed(id)]))
    case Abort(i) =>
      if i >= |w.threads| || !w.threads[i].Failed? then None
      else Some(w.(table := AbortIn(w.table, w.threads[i].id), threads := w.threads[i := Idle]))
  }

  /** The thread has changed the disk and may still finish. */
  predicate Finishes(w: World, thread: nat) {
    thread < |w.threads| && w.threads[thread].Mutated? && Finishable(w.table, w.threads[thread].id)
  }

  ghost function Run(w: World, actions: seq<Action>): Option<World> {
    if actions == [] then Some(w)
    else
      match Run(w, actions[..|actions| - 1])
      case None => None
      case Some(before) => Next(before, actions[|actions| - 1])
  }

  /** Never both flags, and one success since the last Put exactly if the entry is applied. */
  ghost predicate FlagsAgree(w: World) {
    && (forall id :: id in w.table ==> !(w.table[id].applied && w.table[id].applying))
    && (forall id :: Count(w.wins, id) == if id in w.table && w.table[id].applied then 1 else 0)
    && (forall i :: 0 <= i < |w.threads| && !w.threads[i].Idle? ==> w.threads[i].id in w.table)
  }

  /** The claim flag of `id` stands for exactly one thread. */
  ghost predicate Exclusive(w: World, id: string) {
    && id in w.table
    && (forall i, j | 0 <= i < |w.threads| && 0 <= j < |w.threads| ::
          Holds(w.threads[i], id) && Holds(w.threads[j], id) ==> i == j)
    && (forall i :: 0 <= i < |w.threads| && Holds(w.threads[i], id) ==> w.table[id].applying && !w.table[id].applied)
    && (w.table[id].applying ==> Held(w.threads, id))
  }

  ghost predicate ClaimsAreExclusive(w: World) {
    forall id :: id in w.table && id !in w.overlapped ==> Exclusive(w, id)
  }

  ghost predicate Inv(w: World) { FlagsAgree(w) && ClaimsAreExclusive(w) }

  lemma StepKeepsFlags(w: World, a: Action)
    requires FlagsAgree(w) && Next(w, a).Some?
    ensures FlagsAgree(Next(w, a).value)
  {
  }

  lemma StepKeepsClaims(w: World, a: Action)
    requires Inv(w) && Next(w, a).Some?
    ensures ClaimsAreExclusive(Next(w, a).value)
  {
    var v := Next(w, a).value;
    forall id | id in v.table && id !in v.overlapped ensures Exclusive(v, id) {
      ClaimStep(w, a, id);
    }
  }

  lemma ClaimStep(w: World, a: Action, id: string)
    requires Inv(w) && Next(w, a).Some?
    requires id in Next(w, a).value.table && id !in Next(w, a).value.overlapped
    ensures Exclusive(Next(w, a).value, id)
  {
    if a.Put? {
      if a.p.changeSet.id == id {
        assert !Held(w.threads, id);
      }
    } else if !a.Edit? {
      ThreadStep(w, a, id);
    }
  }

  /** What a step of thread `i` can do to an id: nothing, claim it, or release it. */
  ghost predicate ThreadMoves(w: World, v: World, i: nat, id: string) {
    && |v.threads| == |w.threads| && id in w.table && id in v.table
    && (forall k :: 0 <= k < |w.threads| && k != i ==> v.threads[k] == w.threads[k])
    && var held, holds := i < |w.threads| && Holds(w.threads[i], id), i < |v.threads| && Holds(v.threads[i], id);
       var was, now := w.table[id], v.table[id];
       || (held == holds && now == was)
       || (!held && holds && !was.applied && !was.applying && !now.applied && now.applying)
       || (held && !holds && !now.applying)
  }

  lemma ThreadShape(w: World, a: Action, id: string)
    requires Inv(w) && Next(w, a).Some? && !a.Put? && !a.Edit?
    requires id in Next(w, a).value.table && id !in Next(w, a).value.overlapped
    ensures id !in w.overlapped && ThreadMoves(w, Next(w, a).value, a.thread, id)
  {
    hide Sound, FlagsAgree;
    if a.thread < |w.threads| && Holds(w.threads[a.thread], id) {
      HeldIsKnown(w, a.thread);
      assert Exclusive(w, id);
    }
  }

  lemma HeldIsKnown(w: World, i: nat)
    requires FlagsAgree(w) && i < |w.threads| && !w.threads[i].Idle?
    ensures w.threads[i].id in w.table
  {
  }

  lemma ExclusiveAfter(w: World, v: World, i: nat, id: string)
    requires Exclusive(w, id) && ThreadMoves(w, v, i, id)
    ensures Exclusive(v, id)
  {
    if v.table[id].applying {
      if i < |v.threads| && Holds(v.threads[i], id) {
      } else {
        var k :| 0 <= k < |w.threads| && Holds(w.threads[k], id);
        assert Holds(v.threads[k], id);
      }
    }
  }

  lemma ThreadStep(w: World, a: Action, id: string)
    requires Inv(w) && Next(w, a).Some? && !a.Put? && !a.Edit?
    requires id in Next(w, a).value.table && id !in Next(w, a).value.overlapped
    ensures Exclusive(Next(w, a).value, id)
  {
    ThreadShape(w, a, id);
    hide Next, ThreadMoves;
    ExclusiveAfter(w, Next(w, a).value, a.thread, id) by {
      KnownIsExclusive(w, Next(w, a).value, a.thread, id);
    }
  }

  lemma KnownIsExclusive(w: World, v: World, i: nat, id: string)
    requires Inv(w) && ThreadMoves(w, v, i, id) && id !in w.overlapped
    ensures Exclusive(w, id)
  {
  }

  lemma StartHolds(n: nat, site: Site, disk: Workspace)
    ensures Inv(Start(n, site, disk))
  {
  }

  /** Every interleaving of any number of threads and Puts keeps the invariant. */
  lemma {:induction false} RunsKeepInv(n: nat, site: Site, disk: Workspace, actions: seq<Action>)
    requires Run(Start(n, site, disk), actions).Some?
    ensures Inv(Run(Start(n, site, disk), actions).value)
  {
    if actions == [] {
      StartHolds(n, site, disk);
    } else {
      var front := actions[..|actions| - 1];
      RunsKeepInv(n, site, disk, front);
      StepKeepsFlags(Run(Start(n, site, disk), front).value, actions[|actions| - 1]);
      StepKeepsClaims(Run(Start(n, site, disk), front).value, actions[|actions| - 1]);
    }
  }

  /** A proposal is applied successfully at most once after each Put, and its flags exclude each other. */
  lemma AtMostOneSuccessPerPut(n: nat, site: Site, disk: Workspace, actions: seq<Action>, id: string)
    requires Run(Start(n, site, disk), actions).Some?
    ensures Count(Run(Start(n, site, disk), actions).value.wins, id) <= 1
    ensures var t := Run(Start(n, site, disk), actions).value.table; id in t ==> !(t[id].applied && t[id].applying)
  {
    RunsKeepInv(n, site, disk, actions);
  }

  /** Unless it was Put again meanwhile, whoever changed the disk can finish, and works on it alone. */
  lemma FinishSucceedsWithoutOverlap(n: nat, site: Site, disk: Workspace, actions: seq<Action>, i: nat)
    requires Run(Start(n, site, disk), actions).Some?
    requires var w := Run(Start(n, site, disk), actions).value;
             i < |w.threads| && w.threads[i].Mutated? && w.threads[i].id !in w.overlapped
    ensures var w := Run(Start(n, site, disk), actions).value;
            && Finishable(w.table, w.threads[i].id)
            && forall j :: 0 <= j < |w.threads| && j != i ==> !Holds(w.threads[j], w.threads[i].id)
  {
    RunsKeepInv(n, site, disk, actions);
  }

  /** Without such a Put no step of another thread takes a claim away from its holder. */
  lemma OnlyTheHolderReleases(n: nat, site: Site, disk: Workspace, actions: seq<Action>, a: Action, i: nat, id: string)
    requires Run(Start(n, site, disk), actions).Some? && Next(Run(Start(n, site, disk), actions).value, a).Some?
    requires var w := Run(Start(n, site, disk), actions).value; i < |w.threads| && Holds(w.threads[i], id)
    requires id !in Next(Run(Start(n, site, disk), actions).value, a).value.overlapped
    requires a.Put? || a.Edit? || a.thread != i
    ensures var w, v := Run(Start(n, site, disk), actions).value,
            Next(Run(Start(n, site, disk), actions).value, a).value;
            && v.threads[i] == w.threads[i]
            && id in w.table && id in v.table && v.table[id] == w.table[id] && v.table[id].applying
  {
    RunsKeepInv(n, site, disk, actions);
    var w := Run(Start(n, site, disk), actions).value;
    assert id in w.table && Held(w.threads, id);
    if !a.Put? && !a.Edit? && a.thread < |w.threads| {
      assert !Holds(w.threads[a.thread], id);
    }
  }

  lemma RunSnoc(w: World, actions: seq<Action>, a: Action)
    ensures Run(w, actions + [a]) == match Run(w, actions) case None => None case Some(v) => Next(v, a)
  {
    assert (actions + [a])[..|actions|] == actions;
  }

  /**
   Putting a proposal under an id that is being applied breaks this: with a second proposal made on
   the disk that the first thread has changed, both threads change the disk, each after it has
   revalidated, and once one of them has finished the other cannot.
   */
  lemma RePutBreaksFinish(site: Site, disk: Workspace, p: Proposal, q: Proposal)
    returns (actions: seq<Action>, w: World)
    requires !p.applied && !p.applying && !q.applied && !q.applying && q.changeSet.id == p.changeSet.id
    requires Revalidates(site.host, disk, p.(applying := true), site.maxBytes)
    requires var changed := disk.(files := PlanOn(disk.files, p), revision := disk.revision + 1);
             Revalidates(site.host, changed, q.(applying := true), site.maxBytes)
    ensures Run(Start(2, site, disk), actions) == Some(w) && |w.threads| == 2
    ensures w.threads[0].Mutated? && w.threads[1].Mutated? && w.threads[1].id == w.threads[0].id == p.changeSet.id
    ensures w.disk.files == PlanOn(PlanOn(disk.files, p), q) && w.disk.revision == disk.revision + 2
    ensures var v := Next(w, Finish(0));
            && v.Some? && |v.value.threads| == 2 && v.value.threads[1] == w.threads[1]
            && p.changeSet.id in v.value.table && v.value.table[p.changeSet.id].applied && !Finishes(v.value, 1)
  {
    hide Revalidates, PlanOn, Run;
    actions, w := OneApply(Start(2, site, disk), [], Start(2, site, disk), p, 0) by {
      EmptyRun(Start(2, site, disk));
    }
    actions, w := OneApply(Start(2, site, disk), actions, w, q, 1);
  }

  lemma EmptyRun(w: World)
    ensures Run(w, []) == Some(w)
  {
  }

  /** A proposal is put, claimed by an idle thread and put on the disk, whatever other threads hold. */
  lemma OneApply(start: World, actions: seq<Action>, before: World, p: Proposal, i: nat)
    returns (more: seq<Action>, after: World)
    requires Run(start, actions) == Some(before) && i < |before.threads| && before.threads[i] == Idle
    requires !p.applied && !p.applying
    requires Revalidates(before.site.host, before.disk, p.(applying := true), before.site.maxBytes)
    ensures Run(start, more) == Some(after) && after.site == before.site
    ensures after.threads == before.threads[i := Mutated(p.changeSet.id)]
    ensures after.disk == before.disk.(files := PlanOn(before.disk.files, p), revision := before.disk.revision + 1)
    ensures p.changeSet.id in after.table && after.table[p.changeSet.id] == p.(applying := true)
  {
    hide Revalidates, Run, ApplyPlan, Staging;
    var id, files := p.changeSet.id, PlanOn(before.disk.files, p);
    var a1, w1 := Step(start, actions, before, Put(p));
    var a2, w2 := Step(start, a1, w1, Claim(i, id));
    assert w2.threads == before.threads[i := Claimed(id, p.(applying := true))];
    more, after := Step(start, a2, w2, Mutate(i, true, false, files));
  }

  /** One more action of a run. */
  lemma Step(start: World, actions: seq<Action>, before: World, a: Action) returns (more: seq<Action>, after: World)
    requires Run(start, actions) == Some(before) && Next(before, a).Some?
    ensures Run(start, more) == Some(after) && Next(before, a) == Some(after)
  {
    more, after := actions + [a], Next(before, a).value;
    RunSnoc(start, actions, a);
  }
}
