/**
 The Hub's test whether a diff changes anything (`local-agent/internal/idesession/hub.go`,
 `diffHasContentChange`). The Hub skips the apply of a proposal that fails this test, so the
 lemmas say exactly which proposals it takes for unchanged.
 */
module ContentChange {
  import opened LineDiff
  import opened UnifiedDiff

  predicate IsEditLine(line: string) {
    !("+++" <= line) && !("---" <= line) && ("+" <= line || "-" <= line)
  }

  ghost predicate HasEditLine(lines: seq<string>) {
    exists l :: l in lines && IsEditLine(l)
  }

  method DiffHasContentChange(diffText: string) returns (changed: bool)
    ensures changed <==> HasEditLine(Split(diffText))
  {
    var lines := Split(diffText);
    for k := 0 to |lines|
      invariant !HasEditLine(lines[..k])
    {
      assert lines[..k + 1] == lines[..k] + [lines[k]];
      if "+++" <= lines[k] || "---" <= lines[k] {
        continue;
      }
      if "+" <= lines[k] || "-" <= lines[k] {
        assert IsEditLine(lines[k]);
        return true;
      }
    }
    assert lines[..|lines|] == lines;
    return false;
  }

  /** The Hub's verdict on the joined diff of `files`. */
  ghost predicate Changed(files: seq<FileDiff>) { HasEditLine(Split(JoinedDiff(files))) }

  /** An edit whose printed line the test does not mistake for a file header. */
  predicate VisibleEdit(op: Op) {
    match op.kind
    case Keep => false
    case Del => !("--" <= op.line)
    case Add => !("++" <= op.line)
  }

  ghost predicate HasVisibleEdit(ops: seq<Op>) {
    exists op :: op in ops && VisibleEdit(op)
  }

  lemma EditLineIffVisible(op: Op)
    ensures IsEditLine([Mark(op.kind)] + op.line) <==> VisibleEdit(op)
  {
    var line := [Mark(op.kind)] + op.line;
    assert line[0] == Mark(op.kind) && line[1..] == op.line;
    PrefixOfCons("+++", line);
    PrefixOfCons("---", line);
    PrefixOfCons("+", line);
    PrefixOfCons("-", line);
    assert "+++"[1..] == "++" && "---"[1..] == "--" && "+"[1..] == "" && "-"[1..] == "";
  }

  lemma PrefixOfCons(p: string, line: string)
    requires p != "" && line != ""
    ensures p <= line <==> p[0] == line[0] && p[1..] <= line[1..]
  {
    assert p == [p[0]] + p[1..] && line == [line[0]] + line[1..];
    if p <= line {
      assert p[1..] == line[1..|p|] && line[1..|p|] == line[1..][..|p| - 1];
    }
    if p[0] == line[0] && p[1..] <= line[1..] {
      assert p == line[..|p|];
    }
  }

  lemma {:induction false} BodyEdits(ops: seq<Op>)
    ensures HasEditLine(BodyLines(ops)) <==> HasVisibleEdit(ops)
  {
    if ops != [] {
      BodyEdits(ops[1..]);
      EditLineIffVisible(ops[0]);
      var first := [Mark(ops[0].kind)] + ops[0].line;
      HasEditConcat([first], BodyLines(ops[1..]));
      assert HasEditLine([first]) <==> VisibleEdit(ops[0]) by { assert first in [first]; }
      if HasVisibleEdit(ops) {
        var op :| op in ops && VisibleEdit(op);
        assert op == ops[0] || op in ops[1..];
      }
    }
  }

  lemma HasEditConcat(a: seq<string>, b: seq<string>)
    ensures HasEditLine(a + b) <==> HasEditLine(a) || HasEditLine(b)
  {
    forall l | l in a || l in b ensures l in a + b {}
  }

  lemma HeadersAreNotEdits(f: FileDiff, n: nat, m: nat)
    ensures !HasEditLine([OldHeader(f), NewHeader(f), HunkHeader(n, m)])
  {
    assert OldHeader(f)[..3] == "---" && NewHeader(f)[..3] == "+++" && HunkHeader(n, m)[0] == '@';
  }

  lemma {:induction false} LinesEdits(files: seq<FileDiff>)
    ensures HasEditLine(AllLines(files)) <==> exists f :: f in files && HasVisibleEdit(f.Ops())
  {
    if files != [] {
      LinesEdits(files[1..]);
      FileEdits(files[0]);
      HasEditConcat(FileLines(files[0]), AllLines(files[1..]));
      if f :| f in files && HasVisibleEdit(f.Ops()) {
        assert f == files[0] || f in files[1..];
      }
    }
  }

  lemma FileEdits(f: FileDiff)
    ensures HasEditLine(FileLines(f)) <==> HasVisibleEdit(f.Ops())
  {
    if !f.Blank() {
      var g := f.(path := CleanPath(f.path));
      var n, m := |SplitLines(f.oldText)|, |SplitLines(f.newText)|;
      HeadersAreNotEdits(g, n, m);
      BodyEdits(g.Ops());
      HasEditConcat([OldHeader(g), NewHeader(g), HunkHeader(n, m)], BodyLines(g.Ops()));
    }
  }

  /** The Hub takes a proposal for changed exactly when some file's script has a visible edit. */
  lemma ChangedIffVisibleEdit(files: seq<FileDiff>)
    requires OneLinePaths(files)
    ensures Changed(files) <==> exists f :: f in files && HasVisibleEdit(f.Ops())
  {
    JoinedDiffLines(files);
    AllLinesOneLine(files);
    SplitOfJoin(AllLines(files));
    HasEditConcat(AllLines(files), [""]);
    LinesEdits(files);
  }

  lemma {:induction false} EditFreeIff(ops: seq<Op>)
    ensures Edits(ops) == 0 <==> forall op :: op in ops ==> op.kind == Keep
  {
    if ops != [] {
      EditFreeIff(ops[1..]);
      assert ops == [ops[0]] + ops[1..];
    }
  }

  /** Some text differs beyond its final newline. */
  ghost predicate Differs(files: seq<FileDiff>) {
    exists f :: f in files && Terminated(f.oldText) != Terminated(f.newText)
  }

  lemma EditsIffDiffers(f: FileDiff)
    ensures (exists op :: op in f.Ops() && op.kind != Keep) <==> Terminated(f.oldText) != Terminated(f.newText)
  {
    EditFreeIff(f.Ops());
    NoEditsIffEqual(SplitLines(f.oldText), SplitLines(f.newText));
    SameLinesIff(f.oldText, f.newText);
  }

  /** A changed verdict is never wrong: some file's text differs beyond its final newline. */
  lemma ChangedIsRight(files: seq<FileDiff>)
    requires OneLinePaths(files) && Changed(files)
    ensures Differs(files)
  {
    ChangedIffVisibleEdit(files);
    var f :| f in files && HasVisibleEdit(f.Ops());
    EditsIffDiffers(f);
  }

  /** No line of either text could be printed like a file header. */
  ghost predicate HeaderFree(f: FileDiff) {
    && (forall l :: l in SplitLines(f.oldText) ==> !("--" <= l))
    && (forall l :: l in SplitLines(f.newText) ==> !("++" <= l))
  }

  lemma {:induction false} EditsComeFromSides(ops: seq<Op>, op: Op)
    requires op in ops
    ensures op.kind == Del ==> op.line in OldSide(ops)
    ensures op.kind == Add ==> op.line in NewSide(ops)
  {
    if op == ops[0] {
      assert op.kind == Del ==> OldSide(ops)[0] == op.line;
      assert op.kind == Add ==> NewSide(ops)[0] == op.line;
    } else {
      EditsComeFromSides(ops[1..], op);
    }
  }

  /**
   When no line begins like a file header, the verdict tells exactly whether some text differs beyond
   its final newline. Final newlines and empty files never show; `ReviewLaws.OverlookedIff` says
   what that means for a plan.
   */
  lemma HeaderFreeVerdictIsDiffers(files: seq<FileDiff>)
    requires OneLinePaths(files)
    requires forall f :: f in files ==> HeaderFree(f)
    ensures Changed(files) <==> Differs(files)
  {
    ChangedIffVisibleEdit(files);
    forall f | f in files
      ensures HasVisibleEdit(f.Ops()) <==> Terminated(f.oldText) != Terminated(f.newText)
    {
      var a, b := SplitLines(f.oldText), SplitLines(f.newText);
      SameLinesIff(f.oldText, f.newText);
      NoEditsIffEqual(a, b);
      EditFreeIff(f.Ops());
      ScriptTransforms(a, b);
      if op :| op in f.Ops() && op.kind != Keep {
        EditsComeFromSides(f.Ops(), op);
        assert VisibleEdit(op);
      }
    }
  }

  /** The verdict is wrong for a file that loses the line `--x`. */
  lemma UnchangedCanBeWrong()
    ensures !Changed([FileDiff("f", "--x", "")])
  {
    var f := FileDiff("f", "--x", "");
    SplitOneLine("--x");
    assert SplitLines("--x") == ["--x"] && SplitLines("") == [];
    assert ["--x"][1..] == [];
    assert Script([], []) == [];
    assert f.Ops() == [Op(Del, "--x")];
    ChangedIffVisibleEdit([f]);
    assert !VisibleEdit(Op(Del, "--x"));
  }
}
