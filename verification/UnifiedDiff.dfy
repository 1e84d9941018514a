/**
 Unified-diff printer of the Local Agent (`local-agent/internal/diff/unified.go`).

 The printer's partner is a reader that trusts only the counts of each hunk header. It gives
 back every printed file, so the lemmas can say exactly what a diff text pins down.
 */
module UnifiedDiff {
  import opened Wrappers
  import opened LineDiff

  // ----- Lines of a text -----

  predicate OneLine(s: string) { '\n' !in s }

  ghost predicate OneLineEach(lines: seq<string>) {
    forall l :: l in lines ==> OneLine(l)
  }

  /** Splits at every newline, as Go's `strings.Split(s, "\n")` does: never empty. */
  function Split(s: string): (parts: seq<string>)
    ensures parts != []
  {
    if s == "" then [""]
    else if s[0] == '\n' then [""] + Split(s[1..])
    else var rest := Split(s[1..]); [[s[0]] + rest[0]] + rest[1..]
  }

  /** The lines of a file text; the empty piece after a final newline is dropped. */
  function SplitLines(s: string): seq<string> {
    if s == "" then []
    else
      var parts := Split(s);
      if parts[|parts| - 1] == "" then parts[..|parts| - 1] else parts
  }

  function JoinLines(lines: seq<string>): string {
    if lines == [] then "" else lines[0] + "\n" + JoinLines(lines[1..])
  }

  /** `s` with the newline it lacks at its end. */
  function Terminated(s: string): string {
    if s != "" && s[|s| - 1] != '\n' then s + "\n" else s
  }

  lemma {:induction false} SplitPieces(s: string)
    ensures OneLineEach(Split(s))
    ensures JoinLines(Split(s)) == s + "\n"
  {
    if s == "" {
      assert JoinLines([""]) == "\n";
    } else {
      SplitPieces(s[1..]);
      var rest := Split(s[1..]);
      if s[0] == '\n' {
        assert ([""] + rest)[1..] == rest;
        assert JoinLines(Split(s)) == "" + "\n" + (s[1..] + "\n");
      } else {
        var first := [s[0]] + rest[0];
        assert ([first] + rest[1..])[1..] == rest[1..];
        assert JoinLines(Split(s)) == [s[0]] + JoinLines(rest);
        assert rest[0] in rest && OneLine(first);
        forall l | l in [first] + rest[1..] ensures OneLine(l) {
          assert l == first || l in rest;
        }
      }
    }
  }

  lemma {:induction false} SplitAtFirstNewline(l: string, rest: string)
    requires OneLine(l)
    ensures Split(l + "\n" + rest) == [l] + Split(rest)
  {
    if l == "" {
      assert "" + "\n" + rest == "\n" + rest && ("\n" + rest)[1..] == rest;
    } else {
      assert (l + "\n" + rest)[1..] == l[1..] + "\n" + rest;
      SplitAtFirstNewline(l[1..], rest);
      assert [l[0]] + l[1..] == l;
    }
  }

  lemma {:induction false} SplitOneLine(l: string)
    requires OneLine(l)
    ensures Split(l) == [l]
  {
    if l != "" {
      SplitOneLine(l[1..]);
      assert [l[0]] + l[1..] == l;
    }
  }

  lemma {:induction false} SplitOfJoin(lines: seq<string>)
    requires OneLineEach(lines)
    ensures Split(JoinLines(lines)) == lines + [""]
  {
    if lines != [] {
      SplitOfJoin(lines[1..]);
      SplitAtFirstNewline(lines[0], JoinLines(lines[1..]));
    }
  }

  /** Printing lines and splitting the text again gives the lines back. */
  lemma LinesReadBack(lines: seq<string>)
    requires OneLineEach(lines)
    ensures SplitLines(JoinLines(lines)) == lines
  {
    SplitOfJoin(lines);
    assert (lines + [""])[..|lines|] == lines;
  }

  lemma {:induction false} JoinLinesConcat(a: seq<string>, b: seq<string>)
    ensures JoinLines(a + b) == JoinLines(a) + JoinLines(b)
  {
    if a == [] {
      assert a + b == b;
    } else {
      JoinLinesConcat(a[1..], b);
      assert (a + b)[1..] == a[1..] + b;
    }
  }

  lemma CutLast(s: string, t: string, c: char)
    requires s + [c] == t + [c]
    ensures s == t
  {
    assert s == (s + [c])[..|s|] && t == (t + [c])[..|t|];
    assert |s + [c]| == |t + [c]|;
  }

  /** The lines of a text determine it up to its final newline. */
  lemma JoinOfSplit(s: string)
    ensures JoinLines(SplitLines(s)) == Terminated(s)
    ensures OneLineEach(SplitLines(s))
    ensures SplitLines(s) == [] <==> s == ""
  {
    if s != "" {
      SplitPieces(s);
      var parts := Split(s);
      var front, last := parts[..|parts| - 1], parts[|parts| - 1];
      assert parts == front + [last];
      JoinLinesConcat(front, [last]);
      assert JoinLines([last]) == last + "\n";
      assert JoinLines(front) + (last + "\n") == (JoinLines(front) + last) + "\n";
      CutLast(s, JoinLines(front) + last, '\n');
      if last == "" {
        JoinEndsWithNewline(front);
      } else {
        assert s[|s| - 1] == last[|last| - 1] && last in parts;
      }
    }
  }

  lemma {:induction false} JoinEndsWithNewline(lines: seq<string>)
    requires lines != []
    ensures JoinLines(lines) != "" && JoinLines(lines)[|JoinLines(lines)| - 1] == '\n'
  {
    if |lines| > 1 {
      JoinEndsWithNewline(lines[1..]);
    }
  }

  /** Two texts have the same lines exactly when they agree once a missing final newline is added. */
  lemma SameLinesIff(s: string, t: string)
    ensures SplitLines(s) == SplitLines(t) <==> Terminated(s) == Terminated(t)
  {
    JoinOfSplit(s);
    JoinOfSplit(t);
    LinesReadBack(SplitLines(s));
    LinesReadBack(SplitLines(t));
  }

  // ----- The printer -----

  /** One file of a diff: empty text means that the file is absent on that side. */
  datatype FileDiff = FileDiff(path: string, oldText: string, newText: string) {
    predicate Blank() { oldText == "" && newText == "" }
    function Ops(): seq<Op> { Script(SplitLines(oldText), SplitLines(newText)) }
  }

  function CleanPath(path: string): string {
    var p := if path != "" && path[0] == '/' then path[1..] else path;
    if p == "" then "unknown" else p
  }

  function Digit(d: nat): char
    requires d < 10
  {
    ('0' as int + d) as char
  }

  function Decimal(n: nat): string {
    if n < 10 then [Digit(n)] else Decimal(n / 10) + [Digit(n % 10)]
  }

  function OldHeader(f: FileDiff): string {
    if f.oldText == "" then "--- /dev/null" else "--- a/" + f.path
  }

  function NewHeader(f: FileDiff): string {
    if f.newText == "" then "+++ /dev/null" else "+++ b/" + f.path
  }

  /** `start,count`; the start is 0 exactly when there are no lines. */
  function RangeText(count: nat): string {
    Decimal(if count == 0 then 0 else 1) + ("," + Decimal(count))
  }

  function HunkHeader(n: nat, m: nat): string {
    "@@ -" + (RangeText(n) + (" +" + (RangeText(m) + " @@")))
  }

  function Mark(kind: OpKind): char {
    match kind
    case Keep => ' '
    case Del => '-'
    case Add => '+'
  }

  function BodyLines(ops: seq<Op>): seq<string> {
    if ops == [] then [] else [[Mark(ops[0].kind)] + ops[0].line] + BodyLines(ops[1..])
  }

  /** The lines printed for a file whose path is already clean. */
  function ShownLines(f: FileDiff): seq<string> {
    if f.Blank() then []
    else
      [OldHeader(f), NewHeader(f), HunkHeader(|SplitLines(f.oldText)|, |SplitLines(f.newText)|)]
      + BodyLines(f.Ops())
  }

  function FileLines(f: FileDiff): seq<string> { ShownLines(f.(path := CleanPath(f.path))) }

  function FileTextOf(f: FileDiff): string { JoinLines(FileLines(f)) }

  function FileTexts(files: seq<FileDiff>): seq<string> {
    if files == [] then [] else [FileTextOf(files[0])] + FileTexts(files[1..])
  }

  function AllLines(files: seq<FileDiff>): seq<string> {
    if files == [] then [] else FileLines(files[0]) + AllLines(files[1..])
  }

  /** Concatenation of the non-empty parts, each ended by a newline. */
  function JoinParts(parts: seq<string>): string {
    if parts == [] then "" else Terminated(parts[0]) + JoinParts(parts[1..])
  }

  function JoinedDiff(files: seq<FileDiff>): string { JoinParts(FileTexts(files)) }

  lemma BodyLinesSnoc(ops: seq<Op>, op: Op)
    ensures BodyLines(ops + [op]) == BodyLines(ops) + [[Mark(op.kind)] + op.line]
  {
    if ops == [] {
      assert ops + [op] == [op];
    } else {
      assert (ops + [op])[1..] == ops[1..] + [op];
    }
  }

  lemma LineAppended(lines: seq<string>, line: string)
    ensures JoinLines(lines + [line]) == JoinLines(lines) + line + "\n"
  {
    JoinLinesConcat(lines, [line]);
    assert JoinLines([line]) == line + "\n";
  }

  lemma BodyAppended(head: seq<string>, ops: seq<Op>, k: nat)
    requires k < |ops|
    ensures head + BodyLines(ops[..k + 1]) == (head + BodyLines(ops[..k])) + [[Mark(ops[k].kind)] + ops[k].line]
  {
    BodyLinesSnoc(ops[..k], ops[k]);
    assert ops[..k] + [ops[k]] == ops[..k + 1];
  }

  method UnifiedFile(path: string, oldText: string, newText: string) returns (text: string)
    ensures text == FileTextOf(FileDiff(path, oldText, newText))
  {
    var p := if path != "" && path[0] == '/' then path[1..] else path;
    if p == "" {
      p := "unknown";
    }
    var oldLines, newLines := SplitLines(oldText), SplitLines(newText);
    if oldText == "" && newText == "" {
      return "";
    }
    var oldHeader, newHeader;
    if oldText == "" {
      oldHeader, newHeader := "--- /dev/null", "+++ b/" + p;
    } else if newText == "" {
      oldHeader, newHeader := "--- a/" + p, "+++ /dev/null";
    } else {
      oldHeader, newHeader := "--- a/" + p, "+++ b/" + p;
    }
    var ops := LcsOps(oldLines, newLines);
    var oldStart := 1;
    var newStart := 1;
    if |oldLines| == 0 {
      oldStart := 0;
    }
    if |newLines| == 0 {
      newStart := 0;
    }
    var hunk := "@@ -" + ((Decimal(oldStart) + ("," + Decimal(|oldLines|)))
                          + (" +" + ((Decimal(newStart) + ("," + Decimal(|newLines|))) + " @@")));
    text := WriteLines(oldHeader, newHeader, hunk, ops);
  }

  /** Writes the three header lines and one marked line per operation. */
  method WriteLines(oldHeader: string, newHeader: string, hunk: string, ops: seq<Op>) returns (text: string)
    ensures text == JoinLines([oldHeader, newHeader, hunk] + BodyLines(ops))
  {
    ghost var head := [oldHeader, newHeader, hunk];
    LineAppended([], oldHeader);
    LineAppended([oldHeader], newHeader);
    LineAppended([oldHeader, newHeader], hunk);
    assert [] + [oldHeader] == [oldHeader] && [oldHeader] + [newHeader] == [oldHeader, newHeader];
    assert [oldHeader, newHeader] + [hunk] == head && head + BodyLines(ops[..0]) == head;
    text := oldHeader + "\n" + newHeader + "\n";
    text := text + hunk + "\n";
    for k := 0 to |ops|
      invariant text == JoinLines(head + BodyLines(ops[..k]))
    {
      BodyAppended(head, ops, k);
      LineAppended(head + BodyLines(ops[..k]), [Mark(ops[k].kind)] + ops[k].line);
      var mark;
      match ops[k].kind {
        case Keep => mark := ' ';
        case Del => mark := '-';
        case Add => mark := '+';
      }
      text := text + ([mark] + ops[k].line) + "\n";
    }
    assert ops[..|ops|] == ops;
  }

  lemma JoinPartsSnoc(parts: seq<string>, part: string)
    ensures JoinParts(parts + [part]) == JoinParts(parts) + Terminated(part)
  {
    if parts == [] {
      assert parts + [part] == [part];
    } else {
      assert (parts + [part])[1..] == parts[1..] + [part];
    }
  }

  method UnifiedJoin(parts: seq<string>) returns (text: string)
    ensures text == JoinParts(parts)
  {
    text := "";
    for k := 0 to |parts|
      invariant text == JoinParts(parts[..k])
    {
      assert parts[..k + 1] == parts[..k] + [parts[k]];
      JoinPartsSnoc(parts[..k], parts[k]);
      if parts[k] == "" {
        continue;
      }
      text := text + parts[k];
      if parts[k][|parts[k]| - 1] != '\n' {
        text := text + "\n";
      }
    }
    assert parts[..|parts|] == parts;
  }

  /** Joining printed files adds nothing between them. */
  lemma {:induction false} JoinedDiffLines(files: seq<FileDiff>)
    ensures JoinedDiff(files) == JoinLines(AllLines(files))
  {
    if files != [] {
      JoinedDiffLines(files[1..]);
      var own := FileLines(files[0]);
      if own != [] {
        JoinEndsWithNewline(own);
      }
      JoinLinesConcat(own, AllLines(files[1..]));
    }
  }

  // ----- The reader -----

  /** First line, counted from one, and number of lines. */
  datatype Range = Range(start: nat, count: nat)

  /** What a reader learns of one file: its path, on which sides it exists, the ranges, and the script. */
  datatype Record =
    Record(path: string, existed: bool, exists_: bool, oldRange: Range, newRange: Range, ops: seq<Op>)

  function IsDigit(c: char): bool { '0' <= c <= '9' }

  /** Reads digits greedily onto `acc`; gives the number and the unread rest. */
  function ReadNat(acc: nat, s: string): (nat, string)
    decreases |s|
  {
    if s != "" && IsDigit(s[0]) then ReadNat(acc * 10 + (s[0] as int - '0' as int), s[1..]) else (acc, s)
  }

  function ReadPrefix(prefix: string, s: string): Option<string> {
    if prefix <= s then Some(s[|prefix|..]) else None
  }

  /** `start,count` followed by `after`: gives the range and the unread rest. */
  function ReadRange(s: string, after: string): Option<(Range, string)> {
    var (start, afterStart) := ReadNat(0, s);
    match ReadPrefix(",", afterStart)
    case None => None
    case Some(s1) =>
      var (count, afterCount) := ReadNat(0, s1);
      match ReadPrefix(after, afterCount)
      case None => None
      case Some(s2) => Some((Range(start, count), s2))
  }

  function ReadHunk(s: string): Option<(Range, Range)> {
    match ReadPrefix("@@ -", s)
    case None => None
    case Some(s1) =>
      match ReadRange(s1, " +")
      case None => None
      case Some((n, s2)) =>
        match ReadRange(s2, " @@")
        case None => None
        case Some((m, s3)) => if s3 == "" then Some((n, m)) else None
  }

  /** Takes body lines until both counts are used up, whatever the lines look like. */
  function ReadBody(lines: seq<string>, n: nat, m: nat): Option<(seq<Op>, seq<string>)> {
    if n == 0 && m == 0 then Some(([], lines))
    else if lines == [] || lines[0] == "" then None
    else
      var text := lines[0][1..];
      if lines[0][0] == ' ' && n > 0 && m > 0 then PushOp(Op(Keep, text), ReadBody(lines[1..], n - 1, m - 1))
      else if lines[0][0] == '-' && n > 0 then PushOp(Op(Del, text), ReadBody(lines[1..], n - 1, m))
      else if lines[0][0] == '+' && m > 0 then PushOp(Op(Add, text), ReadBody(lines[1..], n, m - 1))
      else None
  }

  function PushOp(op: Op, r: Option<(seq<Op>, seq<string>)>): Option<(seq<Op>, seq<string>)> {
    match r
    case None => None
    case Some((ops, rest)) => Some(([op] + ops, rest))
  }

  /** One file from its three header lines and its body. */
  function ReadFile(lines: seq<string>): Option<(Record, seq<string>)> {
    if |lines| < 3 then None
    else
      var oldPath, newPath := ReadPrefix("--- a/", lines[0]), ReadPrefix("+++ b/", lines[1]);
      if oldPath == None && newPath == None then None
      else
        var path := if newPath.Some? then newPath.value else oldPath.value;
        match ReadHunk(lines[2])
        case None => None
        case Some((before, after)) =>
          match ReadBody(lines[3..], before.count, after.count)
          case None => None
          case Some((ops, rest)) => Some((Record(path, oldPath.Some?, newPath.Some?, before, after, ops), rest))
  }

  lemma {:induction false} ReadBodyShrinks(lines: seq<string>, n: nat, m: nat)
    ensures ReadBody(lines, n, m).Some? ==> |ReadBody(lines, n, m).value.1| <= |lines|
  {
    if !(n == 0 && m == 0) && lines != [] {
      if n > 0 && m > 0 { ReadBodyShrinks(lines[1..], n - 1, m - 1); }
      if n > 0 { ReadBodyShrinks(lines[1..], n - 1, m); }
      if m > 0 { ReadBodyShrinks(lines[1..], n, m - 1); }
    }
  }

  function ReadFiles(lines: seq<string>): Option<seq<Record>>
    decreases |lines|
  {
    if lines == [] then Some([])
    else
      match ReadFile(lines)
      case None => None
      case Some((record, rest)) =>
        assert |rest| < |lines| by {
          var (before, after) := ReadHunk(lines[2]).value;
          ReadBodyShrinks(lines[3..], before.count, after.count);
        }
        match ReadFiles(rest)
        case None => None
        case Some(records) => Some([record] + records)
  }

  function ReadDiff(text: string): Option<seq<Record>> { ReadFiles(SplitLines(text)) }

  /** All lines of a text: from the first on, or nothing. */
  function WholeRange(text: string): Range {
    if text == "" then Range(0, 0) else Range(1, |SplitLines(text)|)
  }

  /** What the reader is expected to see of a file whose path is clean. */
  function RecordOf(f: FileDiff): Record {
    Record(f.path, f.oldText != "", f.newText != "", WholeRange(f.oldText), WholeRange(f.newText), f.Ops())
  }

  /** What the reader is expected to see: every file that is not blank on both sides. */
  function Records(files: seq<FileDiff>): seq<Record> {
    if files == [] then []
    else
      var f := files[0];
      (if f.Blank() then [] else [RecordOf(f.(path := CleanPath(f.path)))])
      + Records(files[1..])
  }

  lemma {:induction false} ReadDecimal(n: nat, rest: string)
    ensures ReadNat(0, Decimal(n) + rest) == ReadNat(n, rest)
  {
    if n < 10 {
      assert (Decimal(n) + rest)[1..] == rest;
    } else {
      var tail := [Digit(n % 10)] + rest;
      assert Decimal(n) + rest == Decimal(n / 10) + tail;
      ReadDecimal(n / 10, tail);
      assert tail[1..] == rest;
    }
  }

  lemma ReadRangeBack(count: nat, after: string, rest: string)
    requires after != "" && !IsDigit(after[0])
    ensures ReadRange(RangeText(count) + (after + rest), after)
            == Some((Range(if count == 0 then 0 else 1, count), rest))
  {
    var start := if count == 0 then 0 else 1;
    var tail := after + rest;
    assert tail[0] == after[0] && ReadNat(count, tail) == (count, tail);
    assert tail[|after|..] == rest && after <= tail;
    var middle := "," + (Decimal(count) + tail);
    assert RangeText(count) + tail == Decimal(start) + middle;
    ReadDecimal(start, middle);
    assert ReadNat(start, middle) == (start, middle);
    assert middle[1..] == Decimal(count) + tail && "," <= middle;
    ReadDecimal(count, tail);
  }

  lemma ReadHunkBack(n: nat, m: nat)
    ensures ReadHunk(HunkHeader(n, m))
            == Some((Range(if n == 0 then 0 else 1, n), Range(if m == 0 then 0 else 1, m)))
  {
    var second := RangeText(m) + " @@";
    var first := RangeText(n) + (" +" + second);
    assert HunkHeader(n, m)[4..] == first && "@@ -" <= HunkHeader(n, m);
    ReadRangeBack(n, " +", second);
    assert second == RangeText(m) + (" @@" + "");
    ReadRangeBack(m, " @@", "");
  }

  lemma {:induction false} ReadBodyBack(ops: seq<Op>, rest: seq<string>)
    ensures ReadBody(BodyLines(ops) + rest, |OldSide(ops)|, |NewSide(ops)|) == Some((ops, rest))
  {
    if ops == [] {
      assert BodyLines(ops) + rest == rest;
    } else {
      ReadBodyBack(ops[1..], rest);
      var lines := BodyLines(ops) + rest;
      assert lines[1..] == BodyLines(ops[1..]) + rest;
      assert lines[0][1..] == ops[0].line;
      assert [ops[0]] + ops[1..] == ops;
    }
  }

  lemma ReadFileBack(f: FileDiff, rest: seq<string>)
    requires !f.Blank()
    ensures ReadFile(ShownLines(f) + rest) == Some((RecordOf(f), rest))
  {
    hide ReadPrefix, ReadHunk, ReadBody, OldHeader, NewHeader, HunkHeader, Script, SplitLines, BodyLines;
    var n, m := |SplitLines(f.oldText)|, |SplitLines(f.newText)|;
    var lines := ShownLines(f) + rest;
    assert lines[0] == OldHeader(f) && lines[1] == NewHeader(f) && lines[2] == HunkHeader(n, m);
    assert lines[3..] == BodyLines(f.Ops()) + rest;
    HeadersBack(f);
    ReadHunkBack(n, m);
    JoinOfSplit(f.oldText);
    JoinOfSplit(f.newText);
    ScriptTransforms(SplitLines(f.oldText), SplitLines(f.newText));
    ReadBodyBack(f.Ops(), rest);
  }

  lemma HeadersBack(f: FileDiff)
    ensures ReadPrefix("--- a/", OldHeader(f)) == if f.oldText == "" then None else Some(f.path)
    ensures ReadPrefix("+++ b/", NewHeader(f)) == if f.newText == "" then None else Some(f.path)
  {
    assert "--- a/"[4] != "--- /dev/null"[4] && "+++ b/"[4] != "+++ /dev/null"[4];
    assert ("--- a/" + f.path)[6..] == f.path && ("+++ b/" + f.path)[6..] == f.path;
  }

  lemma {:induction false} ReadFilesBack(files: seq<FileDiff>)
    ensures ReadFiles(AllLines(files)) == Some(Records(files))
  {
    hide ReadFile, Script, SplitLines;
    if files != [] {
      ReadFilesBack(files[1..]);
      if files[0].Blank() {
        assert AllLines(files) == AllLines(files[1..]);
        assert Records(files) == Records(files[1..]);
      } else {
        ReadFileBack(files[0].(path := CleanPath(files[0].path)), AllLines(files[1..]));
      }
    }
  }

  // ----- No printed line contains a newline -----

  lemma {:induction false} OpsOneLine(ops: seq<Op>)
    requires OneLineEach(OldSide(ops)) && OneLineEach(NewSide(ops))
    ensures OneLineEach(BodyLines(ops))
  {
    if ops != [] {
      var o, n := OldSide(ops), NewSide(ops);
      assert forall l :: l in OldSide(ops[1..]) ==> l in o;
      assert forall l :: l in NewSide(ops[1..]) ==> l in n;
      OpsOneLine(ops[1..]);
      assert if ops[0].kind == Add then n[0] == ops[0].line && n[0] in n else o[0] == ops[0].line && o[0] in o;
      var first := [Mark(ops[0].kind)] + ops[0].line;
      assert OneLine(first);
      assert BodyLines(ops) == [first] + BodyLines(ops[1..]);
      forall l | l in BodyLines(ops) ensures OneLine(l) {
        assert l == first || l in BodyLines(ops[1..]);
      }
    }
  }

  lemma {:induction false} DecimalOneLine(n: nat)
    ensures OneLine(Decimal(n))
  {
    if n >= 10 {
      DecimalOneLine(n / 10);
    }
  }

  lemma RangeOneLine(n: nat)
    ensures OneLine(RangeText(n))
  {
    DecimalOneLine(if n == 0 then 0 else 1);
    DecimalOneLine(n);
  }

  lemma HunkOneLine(n: nat, m: nat)
    ensures OneLine(HunkHeader(n, m))
  {
    RangeOneLine(n);
    RangeOneLine(m);
    assert OneLine(RangeText(m) + " @@");
    assert OneLine(" +" + (RangeText(m) + " @@"));
  }

  lemma HeadersOneLine(f: FileDiff)
    requires OneLine(f.path)
    ensures OneLine(OldHeader(f)) && OneLine(NewHeader(f))
  {
  }

  lemma FileLinesOneLine(f: FileDiff)
    requires OneLine(f.path)
    ensures OneLineEach(FileLines(f))
  {
    var g := f.(path := CleanPath(f.path));
    if !g.Blank() {
      var a, b := SplitLines(f.oldText), SplitLines(f.newText);
      JoinOfSplit(f.oldText);
      JoinOfSplit(f.newText);
      ScriptTransforms(a, b);
      OpsOneLine(g.Ops());
      HunkOneLine(|a|, |b|);
      assert OneLine(g.path);
      HeadersOneLine(g);
    }
  }

  ghost predicate OneLinePaths(files: seq<FileDiff>) {
    forall f :: f in files ==> OneLine(f.path)
  }

  lemma {:induction false} AllLinesOneLine(files: seq<FileDiff>)
    requires OneLinePaths(files)
    ensures OneLineEach(AllLines(files))
  {
    if files != [] {
      FileLinesOneLine(files[0]);
      AllLinesOneLine(files[1..]);
    }
  }

  /** A reader that trusts only the hunk counts recovers every printed file from the joined text. */
  lemma DiffReadsBack(files: seq<FileDiff>)
    requires OneLinePaths(files)
    ensures ReadDiff(JoinedDiff(files)) == Some(Records(files))
  {
    JoinedDiffLines(files);
    AllLinesOneLine(files);
    LinesReadBack(AllLines(files));
    ReadFilesBack(files);
  }

  // ----- What a diff text pins down -----

  /** The part of a file that its diff determines. */
  function Printed(files: seq<FileDiff>): seq<FileDiff> {
    if files == [] then []
    else
      var f := files[0];
      (if f.Blank() then [] else [FileDiff(CleanPath(f.path), Terminated(f.oldText), Terminated(f.newText))])
      + Printed(files[1..])
  }

  /** A record determines path and both texts up to their final newline. */
  function TextsOf(r: Record): FileDiff {
    FileDiff(r.path, JoinLines(OldSide(r.ops)), JoinLines(NewSide(r.ops)))
  }

  function TextsOfAll(records: seq<Record>): seq<FileDiff> {
    if records == [] then [] else [TextsOf(records[0])] + TextsOfAll(records[1..])
  }

  lemma {:induction false} RecordsHoldTexts(files: seq<FileDiff>)
    ensures TextsOfAll(Records(files)) == Printed(files)
  {
    if files != [] {
      RecordsHoldTexts(files[1..]);
      var f := files[0];
      if f.Blank() {
        assert Records(files) == Records(files[1..]) && Printed(files) == Printed(files[1..]);
      } else {
        ScriptTransforms(SplitLines(f.oldText), SplitLines(f.newText));
        JoinOfSplit(f.oldText);
        JoinOfSplit(f.newText);
        assert Records(files)[1..] == Records(files[1..]);
      }
    }
  }

  function ShownLinesOfAll(files: seq<FileDiff>): seq<string> {
    if files == [] then [] else ShownLines(files[0]) + ShownLinesOfAll(files[1..])
  }

  lemma {:induction false} PrintedHoldsLines(files: seq<FileDiff>)
    ensures ShownLinesOfAll(Printed(files)) == AllLines(files)
  {
    if files != [] {
      PrintedHoldsLines(files[1..]);
      var f := files[0];
      if f.Blank() {
        assert Printed(files) == Printed(files[1..]);
      } else {
        var g := FileDiff(CleanPath(f.path), Terminated(f.oldText), Terminated(f.newText));
        assert Printed(files)[1..] == Printed(files[1..]);
        SameLinesIff(f.oldText, g.oldText);
        SameLinesIff(f.newText, g.newText);
        assert SplitLines(f.oldText) == SplitLines(g.oldText) && SplitLines(f.newText) == SplitLines(g.newText);
        assert g.Ops() == f.Ops();
        assert (g.oldText == "" <==> f.oldText == "") && (g.newText == "" <==> f.newText == "");
      }
    }
  }

  /**
   Two change sets have the same diff text exactly when they print the same files: same paths, in
   the same order, with old and new texts equal up to a missing final newline.
   */
  lemma DiffTextPins(files: seq<FileDiff>, others: seq<FileDiff>)
    requires OneLinePaths(files) && OneLinePaths(others)
    ensures JoinedDiff(files) == JoinedDiff(others) <==> Printed(files) == Printed(others)
  {
    if JoinedDiff(files) == JoinedDiff(others) {
      DiffReadsBack(files);
      DiffReadsBack(others);
      RecordsHoldTexts(files);
      RecordsHoldTexts(others);
    }
    if Printed(files) == Printed(others) {
      JoinedDiffLines(files);
      JoinedDiffLines(others);
      PrintedHoldsLines(files);
      PrintedHoldsLines(others);
    }
  }
}
