/**
 Laws of a proposal: when a change list is accepted, and that its order does not matter.
 */
module ProposeLaws {
  import opened Changes
  import opened UnifiedDiff
  import opened Proposing

  // ----- Distinct paths -----

  /** All source paths and rename targets are pairwise distinct; says nothing about order. */
  ghost predicate AllDistinct(changes: seq<FileChange>) {
    && (forall i, j :: 0 <= i < j < |changes| ==> changes[i].path != changes[j].path)
    && (forall i, j | 0 <= i < |changes| && 0 <= j < |changes| ::
          changes[j].operation == Rename ==> changes[i].path != changes[j].target)
    && (forall i, j | 0 <= i < j < |changes| ::
          changes[i].operation == Rename && changes[j].operation == Rename ==> changes[i].target != changes[j].target)
  }

  ghost predicate EachAcceptable(host: Host, files: Files, maxBytes: int, changes: seq<FileChange>) {
    forall ch :: ch in changes ==> ChangeEntries(host, files, maxBytes, ch).Ok?
  }

  lemma {:induction false} EntriesOkIff(host: Host, files: Files, maxBytes: int, changes: seq<FileChange>)
    ensures Entries(host, files, maxBytes, changes).Ok? <==> EachAcceptable(host, files, maxBytes, changes)
  {
    if changes != [] {
      EntriesOkIff(host, files, maxBytes, changes[1..]);
      assert changes == [changes[0]] + changes[1..];
    }
  }

  /**
   The conflict check together with the checks against the disk accepts exactly the lists whose
   changes are acceptable one by one and whose paths are all distinct.
   */
  lemma AcceptedIff(host: Host, files: Files, maxBytes: int, changes: seq<FileChange>)
    ensures NoConflicts(changes) && Entries(host, files, maxBytes, changes).Ok?
       <==> AllDistinct(changes) && EachAcceptable(host, files, maxBytes, changes)
  {
    EntriesOkIff(host, files, maxBytes, changes);
    if NoConflicts(changes) && EachAcceptable(host, files, maxBytes, changes) {
      forall i, j | 0 <= i < |changes| && 0 <= j < |changes| && changes[j].operation == Rename
        ensures changes[i].path != changes[j].target
      {
        // the target does not exist, so no later change can start from it
        assert changes[j] in changes && changes[i] in changes;
        assert ChangeEntries(host, files, maxBytes, changes[j]).Ok?;
        assert ChangeEntries(host, files, maxBytes, changes[i]).Ok?;
        assert changes[i].NeedsBase() ==> changes[i].path in files;
      }
    }
  }

  // ----- When a change set is accepted -----

  /** The file a change starts from is there, readable, and the one its base hash names. */
  predicate BaseReadable(host: Host, files: Files, maxBytes: int, ch: FileChange) {
    && host.inside(ch.path) && ch.path in files && host.isText(files[ch.path])
    && (maxBytes <= 0 || |files[ch.path]| <= maxBytes)
    && (ch.baseHash == "" || host.hash(files[ch.path]) == ch.baseHash)
  }

  /** The place a change puts a new file is inside the workspace and free. */
  predicate PlaceFree(host: Host, files: Files, path: string) { host.inside(path) && path !in files }

  /** What one change needs of the disk. */
  predicate FitsDisk(host: Host, files: Files, maxBytes: int, ch: FileChange) {
    && ch.operation != Unknown
    && (ch.operation == Create ==> PlaceFree(host, files, ch.path))
    && (ch.operation == Rename ==> PlaceFree(host, files, ch.target))
    && (ch.NeedsBase() ==> BaseReadable(host, files, maxBytes, ch))
  }

  lemma AcceptableIff(host: Host, files: Files, maxBytes: int, ch: FileChange)
    ensures ChangeEntries(host, files, maxBytes, ch).Ok? <==> FitsDisk(host, files, maxBytes, ch)
  {
  }

  /** A well-formed change: what it is about is named, and so is the text it starts from. */
  predicate WellFormed(ch: FileChange) {
    && ch.path != "" && ch.operation != Unknown
    && (ch.operation == Rename ==> ch.target != "")
    && (ch.operation in {Modify, Delete, Rename} ==> ch.baseHash != "")
  }

  /** The change set is addressed to this workspace, at the revision it has now. */
  predicate Addressed(host: Host, ws: Workspace, cs: ChangeSet) {
    && (cs.workspaceId == "" || (cs.workspaceId == ws.id && host.isWorkspaceId(cs.workspaceId)))
    && (cs.base == Unset || cs.base == At(ws.revision))
  }

  /** The exact condition under which a change set is accepted. */
  lemma ProposedIff(host: Host, ws: Workspace, cs: ChangeSet, maxBytes: int)
    ensures ProposeOf(host, ws, cs, maxBytes).Ok? <==>
              && host.isChangeSetId(cs.id) && Addressed(host, ws, cs)
              && cs.changes != [] && (forall ch :: ch in cs.changes ==> WellFormed(ch))
              && AllDistinct(CleanedAll(host, cs.changes))
              && forall ch :: ch in CleanedAll(host, cs.changes) ==> FitsDisk(host, ws.files, maxBytes, ch)
  {
    hide NoConflicts, DiffTextOf, PlanOf, AllDistinct, FitsDisk, Entries, CleanedAll;
    AcceptedIff(host, ws.files, maxBytes, CleanedAll(host, cs.changes));
    forall ch ensures ChangeEntries(host, ws.files, maxBytes, ch).Ok? <==> FitsDisk(host, ws.files, maxBytes, ch) {
      AcceptableIff(host, ws.files, maxBytes, ch);
    }
  }

  /** A well-formed change set for another revision is refused as stale, whatever it changes. */
  lemma StaleIsRefused(host: Host, ws: Workspace, cs: ChangeSet, maxBytes: int)
    requires host.isChangeSetId(cs.id) && (cs.workspaceId == "" || cs.workspaceId == ws.id)
    requires cs.workspaceId != "" ==> host.isWorkspaceId(cs.workspaceId)
    requires cs.changes != [] && (forall ch :: ch in cs.changes ==> WellFormed(ch))
    ensures ProposeOf(host, ws, cs, maxBytes) == Err(WorkspaceStale) <==>
            cs.base.At? && cs.base.revision != ws.revision
  {
    hide NoConflicts, DiffTextOf, PlanOf, CleanedAll;
    EntriesErrors(host, ws.files, maxBytes, CleanedAll(host, cs.changes));
  }

  /** The disk checks answer neither of the codes that are about the request as a whole. */
  lemma {:induction false} EntriesErrors(host: Host, files: Files, maxBytes: int, changes: seq<FileChange>)
    ensures Entries(host, files, maxBytes, changes).Err? ==>
              Entries(host, files, maxBytes, changes).code in
              {InvalidPath, InvalidChangeSet, FileNotFound, FileTooLarge, InvalidArgument, FileHashMismatch}
  {
    if changes != [] {
      EntriesErrors(host, files, maxBytes, changes[1..]);
    }
  }

  /** Why a file cannot be read: the first of these that holds. */
  lemma ReadCodes(host: Host, files: Files, path: string, maxBytes: int)
    ensures var r, there := ReadTextFile(host, files, path, maxBytes), host.inside(path) && path in files;
            && (r == Err(InvalidPath) <==> !host.inside(path))
            && (r == Err(FileNotFound) <==> host.inside(path) && path !in files)
            && (r == Err(FileTooLarge) <==> there && maxBytes > 0 && |files[path]| > maxBytes)
            && (r == Err(InvalidArgument) <==>
                  there && (maxBytes <= 0 || |files[path]| <= maxBytes) && !host.isText(files[path]))
            && (r.Ok? ==> there && r.value == files[path])
  {
  }

  /** Why a change set is refused before any file is looked at. */
  lemma RequestCodes(host: Host, ws: Workspace, cs: ChangeSet, maxBytes: int)
    ensures var r := ProposeOf(host, ws, cs, maxBytes);
            && (!host.isChangeSetId(cs.id) || cs.changes == [] || (exists ch :: ch in cs.changes && !WellFormed(ch)) ==>
                  r == Err(InvalidChangeSet))
            && (host.isChangeSetId(cs.id) && cs.changes != [] && (forall ch :: ch in cs.changes ==> WellFormed(ch)) ==>
                  && (cs.workspaceId != "" && !host.isWorkspaceId(cs.workspaceId) ==> r == Err(InvalidChangeSet))
                  && (cs.workspaceId != "" && host.isWorkspaceId(cs.workspaceId) && cs.workspaceId != ws.id ==>
                        r == Err(InvalidArgument))
                  && (cs.workspaceId == "" && cs.base == Malformed ==> r == Err(InvalidArgument))
                  && (cs.workspaceId == ws.id && host.isWorkspaceId(ws.id) && cs.base == Malformed ==>
                        r == Err(InvalidArgument))
                  && (Addressed(host, ws, cs) && !NoConflicts(CleanedAll(host, cs.changes)) ==>
                        r == Err(InvalidChangeSet)))
  {
    hide NoConflicts, DiffTextOf, PlanOf, CleanedAll, Entries;
  }

  /** A change whose base file is not the one its hash names is refused for that. */
  lemma ChangedBaseIsRefused(host: Host, files: Files, maxBytes: int, ch: FileChange)
    requires ch.NeedsBase() && (ch.operation == Rename ==> PlaceFree(host, files, ch.target))
    ensures ChangeEntries(host, files, maxBytes, ch) == Err(FileHashMismatch) <==>
              && host.inside(ch.path) && ch.path in files && host.isText(files[ch.path])
              && (maxBytes <= 0 || |files[ch.path]| <= maxBytes)
              && ch.baseHash != "" && host.hash(files[ch.path]) != ch.baseHash
  {
  }

  /** The conflict check alone lets a rename target be the path of a later change. */
  lemma ConflictCheckIsNotEnough()
    ensures exists changes :: NoConflicts(changes) && !AllDistinct(changes)
  {
    var rename := FileChange("a", Rename, "h", "", "b");
    var edit := FileChange("b", Modify, "h", "x", "");
    assert "a" != "b" by { assert "a"[0] != "b"[0]; }
    assert NoConflicts([rename, edit]);
    assert [rename, edit][1].path == [rename, edit][0].target;
  }

  // ----- Entries with distinct paths -----

  ghost predicate DistinctPaths(entries: seq<Entry>) {
    forall i, j :: 0 <= i < j < |entries| ==> entries[i].diff.path != entries[j].diff.path
  }

  lemma EntryPaths(host: Host, files: Files, maxBytes: int, ch: FileChange)
    requires ChangeEntries(host, files, maxBytes, ch).Ok?
    ensures var own := ChangeEntries(host, files, maxBytes, ch).value;
            && own != [] && own[0].diff.path == ch.path
            && (if ch.operation == Rename then |own| == 2 && own[1].diff.path == ch.target else |own| == 1)
  {
  }

  lemma {:induction false} EntryPathsOf(host: Host, files: Files, maxBytes: int, changes: seq<FileChange>, p: string)
    requires Entries(host, files, maxBytes, changes).Ok?
    ensures (exists e :: e in Entries(host, files, maxBytes, changes).value && e.diff.path == p)
       <==> (exists ch :: ch in changes && (ch.path == p || (ch.operation == Rename && ch.target == p)))
  {
    if changes != [] {
      EntryPathsOf(host, files, maxBytes, changes[1..], p);
      EntryPaths(host, files, maxBytes, changes[0]);
      var own := ChangeEntries(host, files, maxBytes, changes[0]).value;
      var rest := Entries(host, files, maxBytes, changes[1..]).value;
      assert Entries(host, files, maxBytes, changes).value == own + rest;
      assert forall e :: e in own + rest <==> e in own || e in rest;
      assert forall ch :: ch in changes <==> ch == changes[0] || ch in changes[1..];
      assert own[0] in own && (|own| == 2 ==> own[1] in own);
      assert forall e :: e in own ==> e == own[0] || (|own| == 2 && e == own[1]);
    }
  }

  lemma {:induction false} DistinctIff(host: Host, files: Files, maxBytes: int, changes: seq<FileChange>)
    requires EachAcceptable(host, files, maxBytes, changes)
    requires Entries(host, files, maxBytes, changes).Ok?
    ensures AllDistinct(changes) <==> DistinctPaths(Entries(host, files, maxBytes, changes).value)
  {
    if changes != [] {
      assert changes == [changes[0]] + changes[1..];
      assert forall ch :: ch in changes[1..] ==> ch in changes;
      DistinctIff(host, files, maxBytes, changes[1..]);
      OneMoreDistinct(host, files, maxBytes, changes[0], changes[1..]);
    }
  }

  lemma OneMoreDistinct(host: Host, files: Files, maxBytes: int, first: FileChange, rest: seq<FileChange>)
    requires ChangeEntries(host, files, maxBytes, first).Ok?
    requires Entries(host, files, maxBytes, rest).Ok?
    requires AllDistinct(rest) <==> DistinctPaths(Entries(host, files, maxBytes, rest).value)
    ensures AllDistinct([first] + rest)
            <==> DistinctPaths(ChangeEntries(host, files, maxBytes, first).value +
                Entries(host, files, maxBytes, rest).value)
  {
    var own := ChangeEntries(host, files, maxBytes, first).value;
    EntryPaths(host, files, maxBytes, first);
    hide ChangeEntries, Entries, AllDistinct;
    EntryPathsOf(host, files, maxBytes, rest, first.path);
    EntryPathsOf(host, files, maxBytes, rest, first.target);
    AllDistinctCons(first, rest);
    DistinctConcat(own, Entries(host, files, maxBytes, rest).value);
  }

  ghost predicate Uses(changes: seq<FileChange>, p: string) {
    exists ch :: ch in changes && (ch.path == p || (ch.operation == Rename && ch.target == p))
  }

  lemma AllDistinctCons(first: FileChange, rest: seq<FileChange>)
    ensures AllDistinct([first] + rest) <==>
              && AllDistinct(rest)
              && !Uses(rest, first.path)
              && (first.operation == Rename ==> first.path != first.target && !Uses(rest, first.target))
  {
    if AllDistinct([first] + rest) {
      DistinctWithoutFirst(first, rest);
    }
    if && AllDistinct(rest) && !Uses(rest, first.path)
       && (first.operation == Rename ==> first.path != first.target && !Uses(rest, first.target))
    {
      DistinctWithFirst(first, rest);
    }
  }

  lemma DistinctWithFirst(first: FileChange, rest: seq<FileChange>)
    requires AllDistinct(rest) && !Uses(rest, first.path)
    requires first.operation == Rename ==> first.path != first.target && !Uses(rest, first.target)
    ensures AllDistinct([first] + rest)
  {
    var all := [first] + rest;
    forall i | 0 <= i < |all|
      ensures (i == 0 && all[i] == first) || (i > 0 && all[i] == rest[i - 1] && all[i] in rest) {}
  }

  lemma DistinctWithoutFirst(first: FileChange, rest: seq<FileChange>)
    requires AllDistinct([first] + rest)
    ensures AllDistinct(rest) && !Uses(rest, first.path)
    ensures first.operation == Rename ==> first.path != first.target && !Uses(rest, first.target)
  {
    var all := [first] + rest;
    assert forall i :: 0 <= i < |rest| ==> all[i + 1] == rest[i];
    assert AllDistinct(rest) by {
      forall i, j | 0 <= i < |rest| && 0 <= j < |rest|
        ensures i < j ==> rest[i].path != rest[j].path
        ensures i < j && rest[i].operation == Rename && rest[j].operation == Rename ==>
                  rest[i].target != rest[j].target
        ensures rest[j].operation == Rename ==> rest[i].path != rest[j].target
      {
        assert all[i + 1] == rest[i] && all[j + 1] == rest[j];
      }
    }
    forall ch | ch in rest
      ensures ch.path != first.path && (ch.operation == Rename ==> ch.target != first.path)
      ensures first.operation == Rename ==>
                ch.path != first.target && (ch.operation == Rename ==> ch.target != first.target)
    {
      var k :| 0 <= k < |rest| && rest[k] == ch;
      assert all[0] == first && all[k + 1] == ch;
    }
    assert first.operation == Rename ==> all[0].path != all[0].target;
  }

  lemma DistinctConcat(a: seq<Entry>, b: seq<Entry>)
    ensures DistinctPaths(a + b) <==>
              && DistinctPaths(a) && DistinctPaths(b)
              && forall e, f :: e in a && f in b ==> e.diff.path != f.diff.path
  {
    var all := a + b;
    if DistinctPaths(all) {
      forall i, j | 0 <= i < j < |b| ensures b[i].diff.path != b[j].diff.path {
        assert all[|a| + i] == b[i] && all[|a| + j] == b[j];
      }
      forall i, j | 0 <= i < j < |a| ensures a[i].diff.path != a[j].diff.path {
        assert all[i] == a[i] && all[j] == a[j];
      }
      forall e, f | e in a && f in b ensures e.diff.path != f.diff.path {
        var i :| 0 <= i < |a| && a[i] == e;
        var j :| 0 <= j < |b| && b[j] == f;
        assert all[i] == e && all[|a| + j] == f;
      }
    }
  }

  // ----- The plan -----

  /** With distinct paths the plan holds each entry, whatever the order. */
  lemma {:induction false} PlanHolds(entries: seq<Entry>)
    requires DistinctPaths(entries)
    ensures forall e :: e in entries ==> e.diff.path in PlanOf(entries) && PlanOf(entries)[e.diff.path] == e.plan
    ensures forall p :: p in PlanOf(entries) ==> exists e :: e in entries && e.diff.path == p
  {
    if entries != [] {
      var n := |entries| - 1;
      PlanHolds(entries[..n]);
      assert entries == entries[..n] + [entries[n]];
      forall e | e in entries ensures e.diff.path in PlanOf(entries) && PlanOf(entries)[e.diff.path] == e.plan {
        if e != entries[n] {
          assert e in entries[..n];
          var k :| 0 <= k < n && entries[k] == e;
          assert entries[k].diff.path != entries[n].diff.path;
        }
      }
    }
  }

  lemma PlanWithin(a: seq<Entry>, b: seq<Entry>, p: string)
    requires DistinctPaths(a) && DistinctPaths(b)
    requires forall e :: e in a ==> e in b
    requires p in PlanOf(a)
    ensures p in PlanOf(b) && PlanOf(b)[p] == PlanOf(a)[p]
  {
    PlanHolds(a);
    PlanHolds(b);
    var e :| e in a && e.diff.path == p;
    assert e in b;
  }

  lemma SamePlan(a: seq<Entry>, b: seq<Entry>)
    requires DistinctPaths(a) && DistinctPaths(b)
    requires forall e :: e in a <==> e in b
    ensures PlanOf(a) == PlanOf(b)
  {
    forall p | p in PlanOf(a) ensures p in PlanOf(b) && PlanOf(b)[p] == PlanOf(a)[p] {
      PlanWithin(a, b, p);
    }
    forall p | p in PlanOf(b) ensures p in PlanOf(a) {
      PlanWithin(b, a, p);
    }
  }

  // ----- The sorted diff parts -----

  ghost predicate StrictlySorted(s: seq<FileDiff>) {
    forall i, j :: 0 <= i < j < |s| ==> Before(s[i].path, s[j].path)
  }

  ghost predicate DistinctDiffs(s: seq<FileDiff>) {
    forall i, j :: 0 <= i < j < |s| ==> s[i].path != s[j].path
  }

  lemma {:induction false} InsertSorted(d: FileDiff, s: seq<FileDiff>)
    requires StrictlySorted(s) && forall x :: x in s ==> x.path != d.path
    ensures StrictlySorted(Insert(d, s))
    ensures forall x :: x in Insert(d, s) <==> x == d || x in s
  {
    if s == [] || Before(d.path, s[0].path) {
      forall k | 0 <= k < |s| ensures Before(d.path, s[k].path) {
        if k > 0 {
          BeforeTransitive(d.path, s[0].path, s[k].path);
        }
      }
    } else {
      assert s[0] in s;
      BeforeTotal(d.path, s[0].path);
      InsertSorted(d, s[1..]);
      var r := Insert(d, s[1..]);
      forall k | 0 <= k < |r| ensures Before(s[0].path, r[k].path) {
        assert r[k] in r;
        assert r[k] == d || r[k] in s[1..];
      }
      assert s == [s[0]] + s[1..];
    }
  }

  lemma {:induction false} SortSorts(s: seq<FileDiff>)
    requires DistinctDiffs(s)
    ensures StrictlySorted(SortByPath(s))
    ensures forall x :: x in SortByPath(s) <==> x in s
  {
    if s != [] {
      var n := |s| - 1;
      SortSorts(s[..n]);
      assert s == s[..n] + [s[n]];
      forall x | x in SortByPath(s[..n]) ensures x.path != s[n].path {
        var k :| 0 <= k < n && s[k] == x;
      }
      InsertSorted(s[n], SortByPath(s[..n]));
    }
  }

  lemma FirstIsMember<T>(s: seq<T>)
    ensures s != [] ==> s[0] in s
  {
  }

  lemma {:induction false} SortedUnique(a: seq<FileDiff>, b: seq<FileDiff>)
    requires StrictlySorted(a) && StrictlySorted(b)
    requires forall x :: x in a <==> x in b
    ensures a == b
  {
    if a == [] || b == [] {
      FirstIsMember(a);
      FirstIsMember(b);
    } else {
      assert a[0] in b && b[0] in a;
      var i :| 0 <= i < |b| && b[i] == a[0];
      var j :| 0 <= j < |a| && a[j] == b[0];
      if i > 0 && j > 0 {
        BeforeTransitive(a[0].path, b[0].path, a[0].path);
        BeforeIrreflexive(a[0].path);
      }
      assert a[0] == b[0];
      BeforeIrreflexive(a[0].path);
      assert a == [a[0]] + a[1..] && b == [b[0]] + b[1..];
      forall x ensures x in a[1..] <==> x in b[1..] {
        assert x in a <==> x == a[0] || x in a[1..];
        assert x in b <==> x == a[0] || x in b[1..];
        assert x in a[1..] ==> Before(a[0].path, x.path);
        assert x in b[1..] ==> Before(a[0].path, x.path);
      }
      SortedUnique(a[1..], b[1..]);
    }
  }

  lemma {:induction false} DiffsAt(entries: seq<Entry>)
    ensures |Diffs(entries)| == |entries|
    ensures forall k :: 0 <= k < |entries| ==> Diffs(entries)[k] == entries[k].diff
  {
    if entries != [] {
      DiffsAt(entries[1..]);
    }
  }

  lemma SameText(a: seq<Entry>, b: seq<Entry>)
    requires DistinctPaths(a) && DistinctPaths(b)
    requires forall e :: e in a <==> e in b
    ensures DiffTextOf(a) == DiffTextOf(b)
  {
    DiffsAt(a);
    DiffsAt(b);
    var da, db := Diffs(a), Diffs(b);
    SortSorts(da);
    SortSorts(db);
    forall x ensures x in da <==> x in db {
      if x in da {
        var k :| 0 <= k < |da| && da[k] == x;
        assert a[k] in a && a[k] in b;
        var m :| 0 <= m < |b| && b[m] == a[k];
        assert db[m] == x;
      }
      if x in db {
        var k :| 0 <= k < |db| && db[k] == x;
        assert b[k] in b && b[k] in a;
        var m :| 0 <= m < |a| && a[m] == b[k];
        assert da[m] == x;
      }
    }
    SortedUnique(SortByPath(da), SortByPath(db));
  }

  // ----- The order of the change list does not matter -----

  lemma {:induction false} EntriesMembers(host: Host, files: Files, maxBytes: int, changes: seq<FileChange>, e: Entry)
    requires EachAcceptable(host, files, maxBytes, changes)
    requires Entries(host, files, maxBytes, changes).Ok?
    ensures e in Entries(host, files, maxBytes, changes).value
       <==> exists ch :: ch in changes && e in ChangeEntries(host, files, maxBytes, ch).value
  {
    if changes != [] {
      assert forall ch :: ch in changes <==> ch == changes[0] || ch in changes[1..];
      EntriesMembers(host, files, maxBytes, changes[1..], e);
    }
  }

  lemma DropOne<T>(a: seq<T>, b: seq<T>, k: nat)
    requires multiset(a) == multiset(b) && a != [] && k < |b| && b[k] == a[0]
    ensures multiset(b[..k] + b[k + 1..]) == multiset(a[1..])
  {
    assert a == [a[0]] + a[1..];
    assert b == (b[..k] + [b[k]]) + b[k + 1..];
    assert multiset(b[..k] + b[k + 1..]) == multiset(b[..k]) + multiset(b[k + 1..]);
    assert multiset(b) == multiset(b[..k]) + multiset{b[k]} + multiset(b[k + 1..]);
    assert multiset(a) == multiset{a[0]} + multiset(a[1..]);
    assert multiset(b) - multiset{b[k]} == multiset(b[..k]) + multiset(b[k + 1..]);
    assert multiset(a) - multiset{a[0]} == multiset(a[1..]);
  }

  lemma {:induction false} PairsUnderPermutation(a: seq<FileChange>, b: seq<FileChange>)
    requires multiset(a) == multiset(b)
    ensures AllDistinct(a) ==> AllDistinct(b)
  {
    if a == [] {
      assert |b| == |multiset(b)|;
    } else if AllDistinct(a) {
      var x := a[0];
      assert x in multiset(a) && x in b;
      var k :| 0 <= k < |b| && b[k] == x;
      var rest := b[..k] + b[k + 1..];
      assert a == [x] + a[1..];
      DropOne(a, b, k);
      AllDistinctCons(x, a[1..]);
      PairsUnderPermutation(a[1..], rest);
      forall ch | ch in rest ensures ch in a[1..] {
        assert ch in multiset(rest);
      }
      AllDistinctCons(x, rest);
      DistinctInsert(b, k);
    }
  }

  /** Moving one change to the front keeps distinctness. */
  lemma DistinctInsert(b: seq<FileChange>, k: nat)
    requires k < |b| && AllDistinct([b[k]] + (b[..k] + b[k + 1..]))
    ensures AllDistinct(b)
  {
    var m := [b[k]] + (b[..k] + b[k + 1..]);
    var at := (i: int) => if i == k then 0 else if i < k then i + 1 else i;
    forall i | 0 <= i < |b| ensures 0 <= at(i) < |m| && m[at(i)] == b[i] {}
    forall i, j | 0 <= i < j < |b|
      ensures b[i].path != b[j].path
      ensures b[i].operation == Rename && b[j].operation == Rename ==> b[i].target != b[j].target
    {
      assert m[at(i)] == b[i] && m[at(j)] == b[j] && at(i) != at(j);
    }
    forall i, j | 0 <= i < |b| && 0 <= j < |b|
      ensures b[j].operation == Rename ==> b[i].path != b[j].target
    {
      assert m[at(i)] == b[i] && m[at(j)] == b[j];
    }
  }

  lemma CleanedConcat(host: Host, a: seq<FileChange>, b: seq<FileChange>)
    ensures CleanedAll(host, a + b) == CleanedAll(host, a) + CleanedAll(host, b)
  {
  }

  lemma {:induction false} CleanedPermutes(host: Host, a: seq<FileChange>, b: seq<FileChange>)
    requires multiset(a) == multiset(b)
    ensures multiset(CleanedAll(host, a)) == multiset(CleanedAll(host, b))
  {
    if a == [] {
      assert |b| == |multiset(b)|;
    } else {
      var x := a[0];
      assert x in multiset(a) && x in b;
      var k :| 0 <= k < |b| && b[k] == x;
      DropOne(a, b, k);
      CleanedPermutes(host, a[1..], b[..k] + b[k + 1..]);
      assert a == [x] + a[1..] && b == (b[..k] + [x]) + b[k + 1..];
      CleanedConcat(host, [x], a[1..]);
      CleanedConcat(host, b[..k] + [x], b[k + 1..]);
      CleanedConcat(host, b[..k], [x]);
      CleanedConcat(host, b[..k], b[k + 1..]);
    }
  }

  /** What a caller sees of a proposal, apart from the change list it was given. */
  ghost predicate SameOutcome(r: Result<Proposal>, s: Result<Proposal>) {
    && (r.Ok? <==> s.Ok?)
    && (r.Ok? ==> r.value.planned == s.value.planned && r.value.diff == s.value.diff
                  && r.value.diffHash == s.value.diffHash)
  }

  lemma SameEntries(host: Host, files: Files, maxBytes: int, a: seq<FileChange>, b: seq<FileChange>)
    requires forall ch :: ch in a <==> ch in b
    requires AllDistinct(a) && AllDistinct(b)
    requires Entries(host, files, maxBytes, a).Ok? && Entries(host, files, maxBytes, b).Ok?
    ensures PlanOf(Entries(host, files, maxBytes, a).value) == PlanOf(Entries(host, files, maxBytes, b).value)
    ensures DiffTextOf(Entries(host, files, maxBytes, a).value) == DiffTextOf(Entries(host, files, maxBytes, b).value)
  {
    EntriesOkIff(host, files, maxBytes, a);
    EntriesOkIff(host, files, maxBytes, b);
    var ea, eb := Entries(host, files, maxBytes, a).value, Entries(host, files, maxBytes, b).value;
    forall e ensures e in ea <==> e in eb {
      EntriesMembers(host, files, maxBytes, a, e);
      EntriesMembers(host, files, maxBytes, b, e);
    }
    DistinctIff(host, files, maxBytes, a);
    DistinctIff(host, files, maxBytes, b);
    SamePlan(ea, eb);
    SameText(ea, eb);
  }

  lemma SameMembers<T>(a: seq<T>, b: seq<T>)
    requires multiset(a) == multiset(b)
    ensures forall x :: x in a <==> x in b
    ensures |a| == |b|
  {
    forall x ensures x in a <==> x in b {
      assert x in multiset(a) <==> x in multiset(b);
    }
    assert |a| == |multiset(a)| && |b| == |multiset(b)|;
  }

  lemma AcceptancePermutes(host: Host, files: Files, maxBytes: int, a: seq<FileChange>, b: seq<FileChange>)
    requires multiset(a) == multiset(b)
    requires NoConflicts(a) && Entries(host, files, maxBytes, a).Ok?
    ensures NoConflicts(b) && Entries(host, files, maxBytes, b).Ok?
    ensures AllDistinct(a) && AllDistinct(b)
  {
    AcceptedIff(host, files, maxBytes, a);
    AcceptedIff(host, files, maxBytes, b);
    PairsUnderPermutation(a, b);
    SameMembers(a, b);
  }

  lemma ValidatePermutes(host: Host, cs: ChangeSet, others: seq<FileChange>)
    requires multiset(cs.changes) == multiset(others)
    ensures Validate(host, cs) == Validate(host, cs.(changes := others))
  {
    SameMembers(cs.changes, others);
  }

  lemma AcceptedPermutes(host: Host, files: Files, maxBytes: int, a: seq<FileChange>, b: seq<FileChange>)
    requires multiset(a) == multiset(b)
    ensures var ea, eb := Entries(host, files, maxBytes, a), Entries(host, files, maxBytes, b);
            && (NoConflicts(a) && ea.Ok? <==> NoConflicts(b) && eb.Ok?)
            && (NoConflicts(a) && ea.Ok? ==>
                  PlanOf(ea.value) == PlanOf(eb.value) && DiffTextOf(ea.value) == DiffTextOf(eb.value))
  {
    if NoConflicts(a) && Entries(host, files, maxBytes, a).Ok? {
      AcceptancePermutes(host, files, maxBytes, a, b);
      SameMembers(a, b);
      SameEntries(host, files, maxBytes, a, b);
    } else if NoConflicts(b) && Entries(host, files, maxBytes, b).Ok? {
      AcceptancePermutes(host, files, maxBytes, b, a);
    }
  }

  /** Success, plan, diff text and diff hash do not depend on the order of the change list. */
  lemma ProposeIgnoresOrder(host: Host, ws: Workspace, cs: ChangeSet, others: seq<FileChange>, maxBytes: int)
    requires multiset(cs.changes) == multiset(others)
    ensures SameOutcome(ProposeOf(host, ws, cs, maxBytes), ProposeOf(host, ws, cs.(changes := others), maxBytes))
  {
    ValidatePermutes(host, cs, others);
    CleanedPermutes(host, cs.changes, others);
    AcceptedPermutes(host, ws.files, maxBytes, CleanedAll(host, cs.changes), CleanedAll(host, others));
  }
}
