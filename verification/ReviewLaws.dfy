/**
 What a reviewed diff tells about the plan behind it: when a plan changes nothing, when the diff of
 a plan that changes something passes the content test, and how far equal diffs mean equal plans.
 */
module ReviewLaws {
  import opened Wrappers
  import opened Changes
  import opened UnifiedDiff
  import opened ContentChange
  import opened Proposing
  import opened ProposeLaws
  import opened ExecutionLaws

  // ----- Plans that change nothing -----

  /** Every change writes a file with the text it already has. */
  ghost predicate ChangesNothing(files: Files, changes: seq<FileChange>) {
    forall ch :: ch in changes ==> ch.operation == Modify && ch.path in files && files[ch.path] == ch.content
  }

  predicate EntryKeeps(files: Files, e: Entry) {
    match e.plan
    case Remove => e.diff.path !in files
    case Write(content) => e.diff.path in files && files[e.diff.path] == content
  }

  lemma PlanKeepsIff(files: Files, entries: seq<Entry>)
    requires DistinctPaths(entries)
    ensures ApplyPlan(files, PlanOf(entries)) == files <==> forall e :: e in entries ==> EntryKeeps(files, e)
  {
    PlanHolds(entries);
    var plan, after := PlanOf(entries), ApplyPlan(files, PlanOf(entries));
    if forall e :: e in entries ==> EntryKeeps(files, e) {
      forall q ensures (q in after <==> q in files) && (q in files ==> after[q] == files[q]) {
        if q in plan {
          var e :| e in entries && e.diff.path == q;
        }
      }
    } else {
      var e :| e in entries && !EntryKeeps(files, e);
      assert e.plan == plan[e.diff.path];
    }
  }

  /** An accepted change keeps the disk only if it rewrites a file with its own text. */
  lemma ChangeKeepsIff(host: Host, files: Files, maxBytes: int, ch: FileChange)
    requires ChangeEntries(host, files, maxBytes, ch).Ok?
    ensures (forall e :: e in ChangeEntries(host, files, maxBytes, ch).value ==> EntryKeeps(files, e)) <==>
            ch.operation == Modify && ch.path in files && files[ch.path] == ch.content
  {
    var own := ChangeEntries(host, files, maxBytes, ch).value;
    EntryPaths(host, files, maxBytes, ch);
    assert own[0] in own;
  }

  /** The plan of an accepted list leaves the disk as it is exactly when every change rewrites a file as it is. */
  lemma PlanChangesNothingIff(host: Host, files: Files, maxBytes: int, changes: seq<FileChange>)
    requires AllDistinct(changes) && Entries(host, files, maxBytes, changes).Ok?
    ensures ApplyPlan(files, PlanOf(Entries(host, files, maxBytes, changes).value)) == files <==>
            ChangesNothing(files, changes)
  {
    hide ChangeEntries, Entries, PlanOf, ApplyPlan, AllDistinct, DistinctPaths, EntryKeeps;
    EntriesOkIff(host, files, maxBytes, changes);
    DistinctIff(host, files, maxBytes, changes);
    var entries := Entries(host, files, maxBytes, changes).value;
    PlanKeepsIff(files, entries);
    forall e
      ensures e in entries <==> exists ch :: ch in changes && e in ChangeEntries(host, files, maxBytes, ch).value
    {
      EntriesMembers(host, files, maxBytes, changes, e);
    }
    forall ch | ch in changes
      ensures (forall e :: e in ChangeEntries(host, files, maxBytes, ch).value ==> EntryKeeps(files, e)) <==>
              ch.operation == Modify && ch.path in files && files[ch.path] == ch.content
    {
      ChangeKeepsIff(host, files, maxBytes, ch);
    }
  }

  // ----- Plans whose diff shows nothing -----

  /** What an accepted change set asks for, path by path. */
  function EntriesFor(host: Host, ws: Workspace, cs: ChangeSet, maxBytes: int): Result<seq<Entry>> {
    Entries(host, ws.files, maxBytes, CleanedAll(host, cs.changes))
  }

  ghost predicate OneLineEntries(entries: seq<Entry>) {
    forall e :: e in entries ==> OneLine(e.diff.path)
  }

  ghost predicate HasVisibleEntry(entries: seq<Entry>) {
    exists e :: e in entries && HasVisibleEdit(e.diff.Ops())
  }

  /** The printed files of a list of entries. */
  function PartsOf(entries: seq<Entry>): seq<FileDiff> { SortByPath(Diffs(entries)) }

  lemma PartsHoldEntries(entries: seq<Entry>, f: FileDiff)
    requires DistinctPaths(entries)
    ensures f in PartsOf(entries) <==> exists e :: e in entries && e.diff == f
  {
    DiffsAt(entries);
    SortSorts(Diffs(entries));
    if f in Diffs(entries) {
      var k :| 0 <= k < |Diffs(entries)| && Diffs(entries)[k] == f;
      assert entries[k] in entries;
    }
    if e :| e in entries && e.diff == f {
      var k :| 0 <= k < |entries| && entries[k] == e;
      assert Diffs(entries)[k] == f;
    }
  }

  lemma AcceptedEntries(host: Host, ws: Workspace, cs: ChangeSet, maxBytes: int)
    requires ProposeOf(host, ws, cs, maxBytes).Ok?
    ensures EntriesFor(host, ws, cs, maxBytes).Ok? && AllDistinct(CleanedAll(host, cs.changes))
    ensures var p, entries := ProposeOf(host, ws, cs, maxBytes).value, EntriesFor(host, ws, cs, maxBytes).value;
            DistinctPaths(entries) && p.planned == PlanOf(entries) && p.diff == JoinedDiff(PartsOf(entries))
  {
    var changes := CleanedAll(host, cs.changes);
    AcceptedIff(host, ws.files, maxBytes, changes);
    DistinctIff(host, ws.files, maxBytes, changes);
  }

  /** The content test takes an accepted proposal for a change exactly when a touched path has a visible edit. */
  lemma ProposalShowsEditIff(host: Host, ws: Workspace, cs: ChangeSet, maxBytes: int)
    requires ProposeOf(host, ws, cs, maxBytes).Ok?
    requires OneLineEntries(EntriesFor(host, ws, cs, maxBytes).value)
    ensures HasEditLine(Split(ProposeOf(host, ws, cs, maxBytes).value.diff)) <==>
            HasVisibleEntry(EntriesFor(host, ws, cs, maxBytes).value)
  {
    hide HasEditLine, Split, HasVisibleEdit, JoinedDiff, ProposeOf, EntriesFor, PartsOf;
    AcceptedEntries(host, ws, cs, maxBytes);
    var entries := EntriesFor(host, ws, cs, maxBytes).value;
    forall f ensures f in PartsOf(entries) <==> exists e :: e in entries && e.diff == f {
      PartsHoldEntries(entries, f);
    }
    ChangedIffVisibleEdit(PartsOf(entries));
  }

  /**
   The content test overlooks a plan that would change the disk exactly when the change list does
   more than rewrite files as they are and no touched path has a visible edit. Creating an empty
   file and dropping a final newline are such changes, and so are edits that look like headers.
   */
  lemma OverlookedIff(host: Host, ws: Workspace, cs: ChangeSet, maxBytes: int)
    requires ProposeOf(host, ws, cs, maxBytes).Ok?
    requires OneLineEntries(EntriesFor(host, ws, cs, maxBytes).value)
    ensures var p := ProposeOf(host, ws, cs, maxBytes).value;
            !HasEditLine(Split(p.diff)) && ApplyPlan(ws.files, p.planned) != ws.files <==>
            !ChangesNothing(ws.files, CleanedAll(host, cs.changes))
            && !HasVisibleEntry(EntriesFor(host, ws, cs, maxBytes).value)
  {
    hide HasEditLine, Split, HasVisibleEntry, ChangesNothing, PlanOf, ProposeOf, ApplyPlan;
    AcceptedEntries(host, ws, cs, maxBytes);
    ProposalShowsEditIff(host, ws, cs, maxBytes);
    PlanChangesNothingIff(host, ws.files, maxBytes, CleanedAll(host, cs.changes));
  }

  // ----- What a diff shows -----

  /** The text at a path; a missing file has none. */
  function TextAt(files: Files, q: string): string { if q in files then files[q] else "" }

  lemma EntryIsChange(host: Host, files: Files, maxBytes: int, ch: FileChange, e: Entry)
    requires ChangeEntries(host, files, maxBytes, ch).Ok? && e in ChangeEntries(host, files, maxBytes, ch).value
    ensures e.diff.oldText == TextAt(files, e.diff.path)
    ensures e.diff.newText == if e.plan.Write? then e.plan.content else ""
  {
  }

  /**
   The diff of an accepted change set is about its execution: every printed file shows the text
   from before and the text from after the changes were executed in their order, and every path
   whose file the execution changed is printed.
   */
  lemma DiffShowsExecution(host: Host, ws: Workspace, cs: ChangeSet, maxBytes: int) returns (after: Files)
    requires ProposeOf(host, ws, cs, maxBytes).Ok?
    ensures Execute(ws.files, CleanedAll(host, cs.changes)) == Some(after)
    ensures EntriesFor(host, ws, cs, maxBytes).Ok?
    ensures var parts := PartsOf(EntriesFor(host, ws, cs, maxBytes).value);
            && ProposeOf(host, ws, cs, maxBytes).value.diff == JoinedDiff(parts)
            && (forall f :: f in parts ==> f.oldText == TextAt(ws.files, f.path) && f.newText == TextAt(after, f.path))
            && forall q :: q in ws.files.Keys + after.Keys
                           && (q in ws.files && q in after ==> ws.files[q] != after[q]) ==>
                 exists f :: f in parts && f.path == q
  {
    hide PartsOf, PlanOf, JoinedDiff, ProposeOf, Entries, ChangeEntries;
    AcceptedEntries(host, ws, cs, maxBytes);
    ProposalMeansExecution(host, ws, cs, maxBytes);
    var changes, entries := CleanedAll(host, cs.changes), EntriesFor(host, ws, cs, maxBytes).value;
    after := ApplyPlan(ws.files, PlanOf(entries));
    PlanHolds(entries);
    EntriesOkIff(host, ws.files, maxBytes, changes);
    forall f | f in PartsOf(entries) ensures f.oldText == TextAt(ws.files, f.path) && f.newText == TextAt(after, f.path)
    {
      PartsHoldEntries(entries, f);
      var e :| e in entries && e.diff == f;
      EntriesMembers(host, ws.files, maxBytes, changes, e);
      var ch :| ch in changes && e in ChangeEntries(host, ws.files, maxBytes, ch).value;
      EntryIsChange(host, ws.files, maxBytes, ch, e);
    }
    forall q | q in ws.files.Keys + after.Keys && (q in ws.files && q in after ==> ws.files[q] != after[q])
      ensures exists f :: f in PartsOf(entries) && f.path == q
    {
      assert q in PlanOf(entries);
      var e :| e in entries && e.diff.path == q;
      PartsHoldEntries(entries, e.diff);
    }
  }

  // ----- Plans with the same diff -----

  /** What a plan leaves at a path; a path it removes or does not name has no text. */
  function TextAfter(plan: Plan, q: string): string {
    if q in plan && plan[q].Write? then plan[q].content else ""
  }

  /** Relative one-line paths: a diff shows them as they are. */
  ghost predicate PlainPaths(plan: Plan) {
    forall q :: q in plan ==> OneLine(q) && CleanPath(q) == q
  }

  /** The plans leave the same texts everywhere, up to final newlines. */
  ghost predicate SameTexts(plan: Plan, other: Plan) {
    forall q :: Terminated(TextAfter(plan, q)) == Terminated(TextAfter(other, q))
  }

  lemma {:induction false} InPrinted(files: seq<FileDiff>, g: FileDiff)
    ensures g in Printed(files) <==>
            exists f :: f in files && !f.Blank() && g == FileDiff(CleanPath(f.path), Terminated(f.oldText),
                                                                  Terminated(f.newText))
  {
    if files != [] {
      InPrinted(files[1..], g);
      assert files == [files[0]] + files[1..];
    }
  }

  /** The planned text is the new text of the entry. */
  lemma {:induction false} EntryTexts(host: Host, files: Files, maxBytes: int, changes: seq<FileChange>, e: Entry)
    requires Entries(host, files, maxBytes, changes).Ok? && e in Entries(host, files, maxBytes, changes).value
    ensures e.diff.newText == if e.plan.Write? then e.plan.content else ""
  {
    if changes != [] {
      var own := ChangeEntries(host, files, maxBytes, changes[0]).value;
      if e !in own {
        EntryTexts(host, files, maxBytes, changes[1..], e);
      }
    }
  }

  ghost predicate TextsMatch(entries: seq<Entry>) {
    forall e :: e in entries ==> e.diff.newText == if e.plan.Write? then e.plan.content else ""
  }

  /** A text that one plan leaves is left by every plan that prints the same files. */
  lemma PrintedText(entries: seq<Entry>, others: seq<Entry>, q: string)
    requires DistinctPaths(entries) && DistinctPaths(others) && TextsMatch(entries) && TextsMatch(others)
    requires PlainPaths(PlanOf(entries)) && PlainPaths(PlanOf(others))
    requires Printed(PartsOf(entries)) == Printed(PartsOf(others))
    requires TextAfter(PlanOf(entries), q) != ""
    ensures Terminated(TextAfter(PlanOf(entries), q)) == Terminated(TextAfter(PlanOf(others), q))
  {
    hide PartsOf, Printed, PlanOf, Terminated, CleanPath;
    PlanHolds(entries);
    PlanHolds(others);
    var e :| e in entries && e.diff.path == q;
    var g := FileDiff(CleanPath(q), Terminated(e.diff.oldText), Terminated(e.diff.newText));
    PartsHoldEntries(entries, e.diff);
    InPrinted(PartsOf(entries), g);
    InPrinted(PartsOf(others), g);
    var f :| f in PartsOf(others) && !f.Blank()
        && g == FileDiff(CleanPath(f.path), Terminated(f.oldText), Terminated(f.newText));
    PartsHoldEntries(others, f);
    var o :| o in others && o.diff == f;
    assert o.diff.path in PlanOf(others);
  }

  /**
   Proposals with the same diff print the same files, and their plans leave the same texts up to
   final newlines; a file left empty counts as removed.
   */
  lemma SameDiffSameTexts(
    host: Host, origin: Workspace, cs: ChangeSet, maxBytes: int, p: Proposal,
    origin': Workspace, cs': ChangeSet, maxBytes': int, q: Proposal)
    requires MadeFrom(host, origin, cs, maxBytes, p) && MadeFrom(host, origin', cs', maxBytes', q)
    requires p.diff == q.diff && PlainPaths(p.planned) && PlainPaths(q.planned)
    ensures Printed(PartsOf(EntriesFor(host, origin, cs, maxBytes).value)) ==
            Printed(PartsOf(EntriesFor(host, origin', cs', maxBytes').value))
    ensures SameTexts(p.planned, q.planned)
  {
    hide PartsOf, Printed, PlanOf, JoinedDiff, ProposeOf, CleanPath, Terminated, TextAfter;
    AcceptedEntries(host, origin, cs, maxBytes);
    AcceptedEntries(host, origin', cs', maxBytes');
    var a, b := EntriesFor(host, origin, cs, maxBytes).value, EntriesFor(host, origin', cs', maxBytes').value;
    OneLineParts(a);
    OneLineParts(b);
    DiffTextPins(PartsOf(a), PartsOf(b));
    forall e | e in a ensures e.diff.newText == if e.plan.Write? then e.plan.content else "" {
      EntryTexts(host, origin.files, maxBytes, CleanedAll(host, cs.changes), e);
    }
    forall e | e in b ensures e.diff.newText == if e.plan.Write? then e.plan.content else "" {
      EntryTexts(host, origin'.files, maxBytes', CleanedAll(host, cs'.changes), e);
    }
    forall x ensures Terminated(TextAfter(p.planned, x)) == Terminated(TextAfter(q.planned, x)) {
      if TextAfter(p.planned, x) != "" {
        PrintedText(a, b, x);
      } else if TextAfter(q.planned, x) != "" {
        PrintedText(b, a, x);
      }
    }
  }

  lemma OneLineParts(entries: seq<Entry>)
    requires DistinctPaths(entries) && PlainPaths(PlanOf(entries))
    ensures OneLinePaths(PartsOf(entries))
  {
    hide PartsOf, PlanOf;
    PlanHolds(entries);
    forall f | f in PartsOf(entries) ensures OneLine(f.path) {
      PartsHoldEntries(entries, f);
    }
  }
}
