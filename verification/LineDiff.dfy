/**
 Line diff of the Local Agent (`local-agent/internal/diff/unified.go`, `lcsOps`).

 `LcsOps` fills the table of longest-common-subsequence lengths in place and walks it;
 `Script` is the function it is proved to compute. The lemmas say what a script is for:
 it turns the old lines into the new ones, no script does so with fewer edits, and its
 deletions come before its additions.
 */
module LineDiff {

  datatype OpKind = Keep | Del | Add

  datatype Op = Op(kind: OpKind, line: string)

  // ----- What a script means -----

  /** The lines a script consumes: everything it keeps or deletes. */
  function OldSide(ops: seq<Op>): seq<string> {
    if ops == [] then []
    else (if ops[0].kind == Add then [] else [ops[0].line]) + OldSide(ops[1..])
  }

  /** The lines a script produces: everything it keeps or adds. */
  function NewSide(ops: seq<Op>): seq<string> {
    if ops == [] then []
    else (if ops[0].kind == Del then [] else [ops[0].line]) + NewSide(ops[1..])
  }

  function KeptLines(ops: seq<Op>): seq<string> {
    if ops == [] then []
    else (if ops[0].kind == Keep then [ops[0].line] else []) + KeptLines(ops[1..])
  }

  function Keeps(ops: seq<Op>): nat { |KeptLines(ops)| }

  /** Number of deletions and additions. */
  function Edits(ops: seq<Op>): nat {
    if ops == [] then 0
    else (if ops[0].kind == Keep then 0 else 1) + Edits(ops[1..])
  }

  ghost predicate Transforms(ops: seq<Op>, a: seq<string>, b: seq<string>) {
    OldSide(ops) == a && NewSide(ops) == b
  }

  // ----- Common subsequences: a definition that knows nothing of the table -----

  predicate Subsequence(c: seq<string>, s: seq<string>) {
    c == [] ||
    (s != [] && ((c[0] == s[0] && Subsequence(c[1..], s[1..])) || Subsequence(c, s[1..])))
  }

  ghost predicate Common(c: seq<string>, a: seq<string>, b: seq<string>) {
    Subsequence(c, a) && Subsequence(c, b)
  }

  /** `n` is the length of a longest common subsequence of `a` and `b`. */
  ghost predicate IsLcsLength(n: nat, a: seq<string>, b: seq<string>) {
    && (exists c :: Common(c, a, b) && |c| == n)
    && (forall c :: Common(c, a, b) ==> |c| <= n)
  }

  // ----- The table and the walk as functions -----

  /** Value of the table cell for the suffixes `a` and `b`. */
  function Lcs(a: seq<string>, b: seq<string>): nat
    decreases |a| + |b|
  {
    if a == [] || b == [] then 0
    else if a[0] == b[0] then Lcs(a[1..], b[1..]) + 1
    else if Lcs(a[1..], b) >= Lcs(a, b[1..]) then Lcs(a[1..], b)
    else Lcs(a, b[1..])
  }

  /** The walk over the table from the cell of the suffixes `a` and `b`. */
  function Script(a: seq<string>, b: seq<string>): seq<Op>
    decreases |a| + |b|
  {
    if a == [] && b == [] then []
    else if b == [] then [Op(Del, a[0])] + Script(a[1..], b)
    else if a == [] then [Op(Add, b[0])] + Script(a, b[1..])
    else if a[0] == b[0] then [Op(Keep, a[0])] + Script(a[1..], b[1..])
    else if Lcs(a[1..], b) >= Lcs(a, b[1..]) then [Op(Del, a[0])] + Script(a[1..], b)
    else [Op(Add, b[0])] + Script(a, b[1..])
  }

  // ----- The table holds LCS lengths -----

  lemma {:induction false} SubsequenceTails(c: seq<string>, s: seq<string>)
    requires Subsequence(c, s) && c != []
    ensures s != [] && Subsequence(c[1..], s[1..])
  {
    if !(c[0] == s[0] && Subsequence(c[1..], s[1..])) {
      SubsequenceTails(c, s[1..]);
      SubsequenceWeaken(c[1..], s[1..]);
    }
  }

  /** A subsequence of the tail is one of the whole. */
  lemma {:induction false} SubsequenceWeaken(c: seq<string>, s: seq<string>)
    requires s != [] && Subsequence(c, s[1..])
    ensures Subsequence(c, s)
  {
  }

  lemma {:induction false} LcsBounds(c: seq<string>, a: seq<string>, b: seq<string>)
    requires Common(c, a, b)
    ensures |c| <= Lcs(a, b)
    decreases |a| + |b|
  {
    if c == [] {
    } else if a[0] == b[0] {
      SubsequenceTails(c, a);
      SubsequenceTails(c, b);
      LcsBounds(c[1..], a[1..], b[1..]);
    } else if c[0] != a[0] {
      LcsBounds(c, a[1..], b);
    } else {
      LcsBounds(c, a, b[1..]);
    }
  }

  lemma {:induction false} LcsAttained(a: seq<string>, b: seq<string>) returns (c: seq<string>)
    ensures Common(c, a, b) && |c| == Lcs(a, b)
    decreases |a| + |b|
  {
    if a == [] || b == [] {
      c := [];
    } else if a[0] == b[0] {
      var d := LcsAttained(a[1..], b[1..]);
      c := [a[0]] + d;
      assert c[1..] == d;
    } else if Lcs(a[1..], b) >= Lcs(a, b[1..]) {
      c := LcsAttained(a[1..], b);
      SubsequenceWeaken(c, a);
    } else {
      c := LcsAttained(a, b[1..]);
      SubsequenceWeaken(c, b);
    }
  }

  /** Every table cell is the length of a longest common subsequence of its two suffixes. */
  lemma LcsIsLongest(a: seq<string>, b: seq<string>)
    ensures IsLcsLength(Lcs(a, b), a, b)
  {
    var c := LcsAttained(a, b);
    forall d | Common(d, a, b) ensures |d| <= Lcs(a, b) {
      LcsBounds(d, a, b);
    }
  }

  /** Dropping a leading line of either text never makes the table value larger. */
  lemma LcsMonotone(a: seq<string>, b: seq<string>)
    ensures a != [] ==> Lcs(a[1..], b) <= Lcs(a, b)
    ensures b != [] ==> Lcs(a, b[1..]) <= Lcs(a, b)
  {
    if a != [] {
      var c := LcsAttained(a[1..], b);
      SubsequenceWeaken(c, a);
      LcsBounds(c, a, b);
    }
    if b != [] {
      var c := LcsAttained(a, b[1..]);
      SubsequenceWeaken(c, b);
      LcsBounds(c, a, b);
    }
  }

  // ----- What the script does -----

  /** The script turns the old lines into the new ones and keeps a longest common subsequence. */
  lemma {:induction false} ScriptTransforms(a: seq<string>, b: seq<string>)
    ensures Transforms(Script(a, b), a, b)
    ensures Keeps(Script(a, b)) == Lcs(a, b)
    decreases |a| + |b|
  {
    if a == [] && b == [] {
    } else if b == [] {
      ScriptTransforms(a[1..], b);
    } else if a == [] {
      ScriptTransforms(a, b[1..]);
    } else if a[0] == b[0] {
      ScriptTransforms(a[1..], b[1..]);
    } else if Lcs(a[1..], b) >= Lcs(a, b[1..]) {
      ScriptTransforms(a[1..], b);
    } else {
      ScriptTransforms(a, b[1..]);
    }
  }

  /** What any script keeps is a common subsequence, and the rest of both texts is edited. */
  lemma {:induction false} KeptIsCommon(ops: seq<Op>)
    ensures Common(KeptLines(ops), OldSide(ops), NewSide(ops))
    ensures Edits(ops) + 2 * Keeps(ops) == |OldSide(ops)| + |NewSide(ops)|
  {
    if ops != [] {
      KeptIsCommon(ops[1..]);
      var line, k, o, n := ops[0].line, KeptLines(ops[1..]), OldSide(ops[1..]), NewSide(ops[1..]);
      assert ([line] + k)[1..] == k && ([line] + o)[1..] == o && ([line] + n)[1..] == n;
      SubsequenceWeaken(k, [line] + o);
      SubsequenceWeaken(k, [line] + n);
      assert [] + k == k && [] + o == o && [] + n == n;
    }
  }

  /** No script from `a` to `b` has fewer deletions and additions. */
  lemma ScriptIsMinimal(a: seq<string>, b: seq<string>, ops: seq<Op>)
    requires Transforms(ops, a, b)
    ensures Edits(Script(a, b)) <= Edits(ops)
  {
    ScriptTransforms(a, b);
    KeptIsCommon(Script(a, b));
    KeptIsCommon(ops);
    LcsBounds(KeptLines(ops), a, b);
  }

  /** No addition is directly followed by a deletion. */
  predicate DeletionsFirst(ops: seq<Op>) {
    forall k :: 0 < k < |ops| ==> !(ops[k - 1].kind == Add && ops[k].kind == Del)
  }

  /** After a step that adds, the walk does not delete: the table would have preferred to delete first. */
  lemma NoDeleteAfterAdd(a: seq<string>, b: seq<string>)
    requires a != [] && b != [] && a[0] != b[0] && Lcs(a[1..], b) < Lcs(a, b[1..])
    ensures var rest := Script(a, b[1..]); rest != [] && rest[0].kind != Del
  {
    LcsMonotone(a[1..], b);
  }

  /** Between two kept lines all deletions precede all additions. */
  lemma {:induction false} ScriptDeletesFirst(a: seq<string>, b: seq<string>)
    ensures DeletionsFirst(Script(a, b))
    decreases |a| + |b|
  {
    if a == [] && b == [] {
    } else if b == [] {
      ScriptDeletesFirst(a[1..], b);
    } else if a == [] {
      ScriptDeletesFirst(a, b[1..]);
      assert b[1..] != [] ==> Script(a, b[1..])[0].kind == Add;
    } else if a[0] == b[0] {
      ScriptDeletesFirst(a[1..], b[1..]);
    } else if Lcs(a[1..], b) >= Lcs(a, b[1..]) {
      ScriptDeletesFirst(a[1..], b);
    } else {
      ScriptDeletesFirst(a, b[1..]);
      NoDeleteAfterAdd(a, b);
    }
  }

  /** A script without edits is exactly a script between equal texts. */
  lemma {:induction false} NoEditsIffEqual(a: seq<string>, b: seq<string>)
    ensures Edits(Script(a, b)) == 0 <==> a == b
    decreases |a| + |b|
  {
    ScriptTransforms(a, b);
    KeptIsCommon(Script(a, b));
    if a == b {
      if a != [] {
        NoEditsIffEqual(a[1..], b[1..]);
      }
    } else if Edits(Script(a, b)) == 0 {
      AllKept(Script(a, b));
      assert false;
    }
  }

  lemma {:induction false} AllKept(ops: seq<Op>)
    requires Edits(ops) == 0
    ensures OldSide(ops) == NewSide(ops)
  {
    if ops != [] {
      AllKept(ops[1..]);
    }
  }

  // ----- The algorithm -----

  /** One cell of the table from its three neighbours. */
  lemma LcsCell(a: seq<string>, b: seq<string>, i: nat, j: nat)
    requires i < |a| && j < |b|
    ensures Lcs(a[i..], b[j..]) ==
            if a[i] == b[j] then Lcs(a[i + 1..], b[j + 1..]) + 1
            else if Lcs(a[i + 1..], b[j..]) >= Lcs(a[i..], b[j + 1..]) then Lcs(a[i + 1..], b[j..])
            else Lcs(a[i..], b[j + 1..])
  {
    assert a[i..][1..] == a[i + 1..] && b[j..][1..] == b[j + 1..];
  }

  /** One step of the walk. */
  lemma ScriptStep(a: seq<string>, b: seq<string>, i: nat, j: nat)
    requires i <= |a| && j <= |b|
    ensures i < |a| && j < |b| && a[i] == b[j] ==>
              Script(a[i..], b[j..]) == [Op(Keep, a[i])] + Script(a[i + 1..], b[j + 1..])
    ensures i < |a| && j < |b| && a[i] != b[j] && Lcs(a[i + 1..], b[j..]) >= Lcs(a[i..], b[j + 1..]) ==>
              Script(a[i..], b[j..]) == [Op(Del, a[i])] + Script(a[i + 1..], b[j..])
    ensures i < |a| && j < |b| && a[i] != b[j] && Lcs(a[i + 1..], b[j..]) < Lcs(a[i..], b[j + 1..]) ==>
              Script(a[i..], b[j..]) == [Op(Add, b[j])] + Script(a[i..], b[j + 1..])
    ensures i < |a| && j == |b| ==>
              Script(a[i..], b[j..]) == [Op(Del, a[i])] + Script(a[i + 1..], b[j..])
    ensures i == |a| && j < |b| ==>
              Script(a[i..], b[j..]) == [Op(Add, b[j])] + Script(a[i..], b[j + 1..])
  {
    assert i < |a| ==> a[i..][1..] == a[i + 1..];
    assert j < |b| ==> b[j..][1..] == b[j + 1..];
  }

  ghost predicate IsTable(dp: array2<nat>, a: seq<string>, b: seq<string>)
    reads dp
  {
    && dp.Length0 == |a| + 1 && dp.Length1 == |b| + 1
    && forall x, y :: 0 <= x <= |a| && 0 <= y <= |b| ==> dp[x, y] == Lcs(a[x..], b[y..])
  }

  method FillTable(a: seq<string>, b: seq<string>) returns (dp: array2<nat>)
    ensures IsTable(dp, a, b)
  {
    var n, m := |a|, |b|;
    dp := new nat[n + 1, m + 1]((_, _) => 0);
    var i := n - 1;
    while i >= 0
      invariant -1 <= i < n || i == n - 1
      invariant forall x, y :: 0 <= x <= i && 0 <= y <= m ==> dp[x, y] == 0
      invariant forall x, y :: i < x <= n && 0 <= y <= m ==> dp[x, y] == Lcs(a[x..], b[y..])
    {
      var j := m - 1;
      while j >= 0
        invariant -1 <= j < m || j == m - 1
        invariant forall x, y :: 0 <= x < i && 0 <= y <= m ==> dp[x, y] == 0
        invariant forall y :: 0 <= y <= j ==> dp[i, y] == 0
        invariant forall y :: j < y <= m ==> dp[i, y] == Lcs(a[i..], b[y..])
        invariant forall x, y :: i < x <= n && 0 <= y <= m ==> dp[x, y] == Lcs(a[x..], b[y..])
      {
        LcsCell(a, b, i, j);
        if a[i] == b[j] {
          dp[i, j] := dp[i + 1, j + 1] + 1;
        } else if dp[i + 1, j] >= dp[i, j + 1] {
          dp[i, j] := dp[i + 1, j];
        } else {
          dp[i, j] := dp[i, j + 1];
        }
        j := j - 1;
      }
      i := i - 1;
    }
  }

  /** The operations appended so far, followed by the rest of the walk, are the whole script. */
  ghost predicate WalkAt(ops: seq<Op>, a: seq<string>, b: seq<string>, i: nat, j: nat) {
    i <= |a| && j <= |b| && ops + Script(a[i..], b[j..]) == Script(a, b)
  }

  lemma Append(ops: seq<Op>, a: seq<string>, b: seq<string>, i: nat, j: nat, op: Op, i': nat, j': nat)
    requires WalkAt(ops, a, b, i, j) && i' <= |a| && j' <= |b|
    requires Script(a[i..], b[j..]) == [op] + Script(a[i'..], b[j'..])
    ensures WalkAt(ops + [op], a, b, i', j')
  {
    assert ops + ([op] + Script(a[i'..], b[j'..])) == (ops + [op]) + Script(a[i'..], b[j'..]);
  }

  method LcsOps(a: seq<string>, b: seq<string>) returns (ops: seq<Op>)
    ensures ops == Script(a, b)
  {
    var dp := FillTable(a, b);
    ops := [];
    var i, j := 0, 0;
    while i < |a| && j < |b|
      invariant IsTable(dp, a, b) && WalkAt(ops, a, b, i, j)
      decreases |a| - i + |b| - j
    {
      ScriptStep(a, b, i, j);
      if a[i] == b[j] {
        Append(ops, a, b, i, j, Op(Keep, a[i]), i + 1, j + 1);
        ops := ops + [Op(Keep, a[i])];
        i, j := i + 1, j + 1;
      } else if dp[i + 1, j] >= dp[i, j + 1] {
        Append(ops, a, b, i, j, Op(Del, a[i]), i + 1, j);
        ops := ops + [Op(Del, a[i])];
        i := i + 1;
      } else {
        Append(ops, a, b, i, j, Op(Add, b[j]), i, j + 1);
        ops := ops + [Op(Add, b[j])];
        j := j + 1;
      }
    }
    while i < |a|
      invariant WalkAt(ops, a, b, i, j) && (i == |a| || j == |b|)
    {
      ScriptStep(a, b, i, j);
      Append(ops, a, b, i, j, Op(Del, a[i]), i + 1, j);
      ops := ops + [Op(Del, a[i])];
      i := i + 1;
    }
    while j < |b|
      invariant WalkAt(ops, a, b, i, j) && i == |a|
    {
      ScriptStep(a, b, i, j);
      Append(ops, a, b, i, j, Op(Add, b[j]), i, j + 1);
      ops := ops + [Op(Add, b[j])];
      j := j + 1;
    }
  }
}
