/**
 Concrete inputs: a host whose hash is the text itself behind a letter, and change lists of one
 new file. They show that the exceptions the laws speak of can happen.
 */
module Samples {
  import opened Wrappers
  import opened Changes
  import opened LineDiff
  import opened UnifiedDiff
  import opened ContentChange
  import opened Proposing
  import opened ExecutionLaws
  import opened DiskApply
  import opened Applying
  import opened Hub
  import opened HubRuns
  import opened HubReviews
  import R = StoreRuns

  const HOST := Host(p => p, p => true, text => "h" + text, text => true, id => id != "", id => id != "")

  function Creating(path: string, content: string): FileChange { FileChange(path, Create, "", content, "") }

  function Creation(id: string, ws: Workspace, path: string, content: string): Proposal {
    var diff := JoinedDiff([FileDiff(path, "", content)]);
    Proposal(ChangeSet(id, ws.id, Unset, [Creating(path, content)]), diff, "h" + diff, ws.revision,
             map[path := Write(content)], false, false)
  }

  lemma OneEntry(diff: FileDiff, planned: Planned)
    ensures var entry := Entry(diff, planned);
            DiffTextOf([entry]) == JoinedDiff([diff]) && PlanOf([entry]) == map[diff.path := planned]
  {
    hide JoinedDiff;
    var entry := Entry(diff, planned);
    assert [entry][1..] == [] && [entry][..0] == [] && [diff] + [] == [diff];
    assert Diffs([entry]) == [diff] && [diff][..0] == [];
    assert SortByPath([diff]) == [diff];
  }

  lemma CreationEntries(files: Files, path: string, content: string, maxBytes: int)
    requires path !in files
    ensures Entries(HOST, files, maxBytes, [Creating(path, content)]) ==
            Ok([Entry(FileDiff(path, "", content), Write(content))])
  {
    var ch, entry := Creating(path, content), Entry(FileDiff(path, "", content), Write(content));
    assert [ch][1..] == [] && [entry] + [] == [entry];
  }

  /** A new file is proposed wherever its path is free. */
  lemma CreationIsProposed(id: string, ws: Workspace, path: string, content: string, maxBytes: int)
    requires id != "" && ws.id != "" && path != "" && path !in ws.files
    ensures ProposeOf(HOST, ws, ChangeSet(id, ws.id, Unset, [Creating(path, content)]), maxBytes)
            == Ok(Creation(id, ws, path, content))
  {
    hide JoinedDiff, DiffTextOf, PlanOf, Entries;
    var ch := Creating(path, content);
    CreationEntries(ws.files, path, content, maxBytes);
    OneEntry(FileDiff(path, "", content), Write(content));
    assert CleanedAll(HOST, [ch]) == [ch];
    assert NoConflicts([ch]);
  }

  const CONFIG := Config(HOST, "ws", 0, true, true, path => "")

  const EMPTY_DISK := Workspace("ws", 0, map[])

  const FRESH := Agent(NOTHING, "", map[], map[], map["ws" := EMPTY_DISK])

  lemma LinesOfX()
    ensures SplitLines("x") == ["x"] && Terminated("x") == "x\n" && Terminated("x\n") == "x\n"
  {
    SplitOneLine("x");
    assert ["x"] + [] == ["x"] && "x"[..0] == "";
  }

  /** With and without its final newline, a new file has one and the same diff, which shows an edit. */
  lemma SameDiffOfX()
    ensures JoinedDiff([FileDiff("f", "", "x\n")]) == JoinedDiff([FileDiff("f", "", "x")])
    ensures HasEditLine(Split(JoinedDiff([FileDiff("f", "", "x")])))
  {
    LinesOfX();
    var with, without := FileDiff("f", "", "x\n"), FileDiff("f", "", "x");
    assert [with][1..] == [] && [without][1..] == [];
    DiffTextPins([with], [without]);
    assert SplitLines("") == [] && Script([], ["x"]) == [Op(Add, "x")] + Script([], ["x"][1..]);
    assert without.Ops()[0] == Op(Add, "x") && VisibleEdit(without.Ops()[0]);
    assert without in [without] && HasVisibleEdit(without.Ops());
    ChangedIffVisibleEdit([without]);
  }

  lemma FileIsProposed(content: string)
    ensures Proposed(CONFIG, FRESH, [Creating("f", content)], Creation("cs", EMPTY_DISK, "f", content))
  {
    CreationIsProposed("cs", EMPTY_DISK, "f", content, 0);
    var drafts := [Creating("f", content)];
    assert drafts[..0] == [] && [] + drafts == drafts;
    assert Fill(HOST, map[], 0, drafts) == Ok(drafts);
    hide ProposeOf, JoinedDiff;
    assert PreparedOn(CONFIG, EMPTY_DISK, map[], map[], "cs", drafts) == Ok(Creation("cs", EMPTY_DISK, "f", content));
  }

  lemma CreationIsReviewable(content: string)
    requires content == "x" || content == "x\n"
    ensures Reviewable(CONFIG, FRESH, [Creating("f", content)], Creation("cs", EMPTY_DISK, "f", content))
  {
    SameDiffOfX();
    FileIsProposed(content);
    hide Proposed, HasEditLine, Split, JoinedDiff;
  }

  /**
   The file "x" with a final newline is reviewed and approved, the same without it is shown under
   no approval, and the one without it is written.
   */
  lemma UnapprovedPlanIsWritten() returns (states: seq<Agent>, events: seq<HubRuns.Event>)
    ensures Run(CONFIG, states, events) && |events| == 3 && LastReview(CONFIG, events[..2]) == Some(0)
    ensures "cs" in states[1].table && states[1].table["cs"].planned == map["f" := Write("x\n")]
    ensures Writes(states[2], events[2], states[3])
    ensures "ws" in states[3].disks && states[3].disks["ws"].files == map["f" := "x"]
  {
    SameDiffOfX();
    CreationIsReviewable("x\n");
    CreationIsReviewable("x");
    var p, q := Creation("cs", EMPTY_DISK, "f", "x\n"), Creation("cs", EMPTY_DISK, "f", "x");
    hide Reviewable, JoinedDiff, HasEditLine, Split, Run, Reviewing, Written, ApplyStarted, LastReview;
    states, events := ReplacedPlanIsWritten(
      CONFIG, FRESH, "wi", "apr", [Creating("f", "x\n")], p, [Creating("f", "x")], q);
    XIsWritten(states[3]);
  }

  lemma XIsWritten(t: Agent)
    requires Written(CONFIG, FRESH, Creation("cs", EMPTY_DISK, "f", "x"), t)
    ensures "ws" in t.disks && t.disks["ws"].files == map["f" := "x"] && t.disks != FRESH.disks
  {
    hide JoinedDiff;
    var q := Creation("cs", EMPTY_DISK, "f", "x");
    assert EMPTY_DISK.files - Staging(q.planned) == map[];
    assert ApplyPlan(map[], q.planned) == map["f" := "x"];
    assert t.disks["ws"].revision == 1 && FRESH.disks["ws"].revision == 0;
  }

  lemma EmptyFileShowsNoEdit()
    ensures !ShowsEdit(Creation("cs", EMPTY_DISK, "f", ""))
  {
    var blank := FileDiff("f", "", "");
    assert SplitLines("") == [] && Script([], []) == [] && !HasVisibleEdit(blank.Ops());
    ChangedIffVisibleEdit([blank]);
    hide HasEditLine, Split, JoinedDiff;
  }

  /** Creating an empty file is reviewed, approved and reported as applied, and the disk stays as it was. */
  lemma EmptyFileIsNotWritten() returns (states: seq<Agent>, events: seq<HubRuns.Event>, p: Proposal)
    ensures Run(CONFIG, states, events) && |events| == 2 && states[0] == FRESH
    ensures events[0] == Reviewing(CONFIG, "wi", "apr", [Creating("f", "")], p) && p.planned == map["f" := Write("")]
    ensures ReportsUnwritten(events[1], p) && states[2].disks == FRESH.disks
    ensures ApplyPlan(EMPTY_DISK.files, p.planned) == map["f" := ""] != EMPTY_DISK.files
  {
    p := Creation("cs", EMPTY_DISK, "f", "");
    assert ApplyPlan(map[], p.planned) == map["f" := ""];
    assert "f" in ApplyPlan(map[], p.planned);
    FileIsProposed("");
    EmptyFileShowsNoEdit();
    hide JoinedDiff, HasEditLine, Split, Run, Reviewing, ApplyStarted, ReportsUnwritten, Proposed, ShowsEdit;
    states, events := OverlookedChangeIsNotWritten(CONFIG, FRESH, "wi", "wi", "apr", [Creating("f", "")], p);
  }

  /** An instance: while "f" is being created, creating "g" is put under the same id. */
  lemma TwoThreadsChangeTheDisk() returns (actions: seq<R.Action>, w: R.World)
    ensures R.Run(R.Start(2, R.Site(HOST, 0), EMPTY_DISK), actions) == Some(w)
    ensures |w.threads| == 2 && w.threads[0].Mutated? && w.threads[1].Mutated?
    ensures w.disk.files == map["f" := "x", "g" := "x"] && w.disk.revision == 2
    ensures var v := R.Next(w, R.Finish(0));
            v.Some? && |v.value.threads| == 2 && v.value.threads[1].Mutated? && !R.Finishes(v.value, 1)
  {
    hide Revalidates, R.PlanOn, R.Run, R.Next, R.Finishes, Creation;
    var changed := Workspace("ws", 1, map["f" := "x"]);
    var first, second := Creation("cs", EMPTY_DISK, "f", "x"), Creation("cs", changed, "g", "x");
    assert "f"[0] != "g"[0];
    TmpIsLonger("f");
    TmpIsLonger("g");
    CreationOnDisk(EMPTY_DISK, "f");
    CreationOnDisk(changed, "g");
    RevalidatesWhereMade(EMPTY_DISK, "f");
    RevalidatesWhereMade(changed, "g");
    actions, w := R.RePutBreaksFinish(R.Site(HOST, 0), EMPTY_DISK, first, second);
  }

  lemma TmpIsLonger(path: string)
    requires |path| == 1
    ensures |TmpOf(path)| > 1
  {
  }

  lemma RevalidatesWhereMade(ws: Workspace, path: string)
    requires ws.id != "" && path != "" && path !in ws.files
    ensures Revalidates(HOST, ws, Creation("cs", ws, path, "x").(applying := true), 0)
    ensures var p := Creation("cs", ws, path, "x"); p.changeSet.id == "cs" && !p.applied && !p.applying
  {
    CreationIsProposed("cs", ws, path, "x", 0);
    hide ProposeOf, JoinedDiff;
  }

  lemma CreationOnDisk(ws: Workspace, path: string)
    requires TmpOf(path) !in ws.files
    ensures R.PlanOn(ws.files, Creation("cs", ws, path, "x")) == ws.files[path := "x"]
  {
    hide JoinedDiff;
    var plan := Creation("cs", ws, path, "x").planned;
    assert forall q :: q in Staging(plan) ==> q == TmpOf(path);
    assert ws.files - Staging(plan) == ws.files;
    assert ApplyPlan(ws.files, plan) == ws.files[path := "x"];
  }
}
