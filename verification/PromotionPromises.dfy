/** What a promotion promises, said of the approval, the incoming files and the
    store alone. */
module PromotionPromises {
  import opened Outcomes
  import opened Promotion

  // ---- Which approvals are accepted, as which rows ---------------------------------------

  function Slashed(p: Path): string {
    if p == [] then "" else if |p| == 1 then p[0] else p[0] + "/" + Slashed(p[1..])
  }

  predicate PartChar(c: char) {
    || 'A' <= c <= 'Z' || 'a' <= c <= 'z' || '0' <= c <= '9'
    || c == '_' || c == '.' || c == '+' || c == '@' || c == '=' || c == '-'
  }

  predicate GoodPart(part: string) {
    part != "" && part != "." && part != ".." && forall i | 0 <= i < |part| :: PartChar(part[i])
  }

  predicate GoodPath(p: Path) { p != [] && forall i | 0 <= i < |p| :: GoodPart(p[i]) }

  predicate NoSlash(p: Path) { forall i | 0 <= i < |p| :: '/' !in p[i] }

  lemma {:induction false} PartsAreSlashed(value: string)
    ensures Slashed(Parts(value)) == value && NoSlash(Parts(value))
  {
    if value != "" {
      var p := Parts(value[1..]);
      PartsAreSlashed(value[1..]);
      assert value == [value[0]] + value[1..];
      if value[0] == '/' {
        assert ([""] + p)[1..] == p && "" + "/" + Slashed(p) == value;
      } else {
        var q := [[value[0]] + p[0]] + p[1..];
        assert q[1..] == p[1..] && q[0] == [value[0]] + p[0];
        forall i | 0 <= i < |q| ensures '/' !in q[i] { if i > 0 { assert q[i] == p[i]; } }
      }
    }
  }

  lemma {:induction false} OnePart(part: string)
    requires '/' !in part
    ensures Parts(part) == [part]
  {
    if part != "" {
      OnePart(part[1..]);
      assert [part[0]] + part[1..] == part && part[0] in part;
    }
  }

  lemma {:induction false} PartThen(part: string, rest: string)
    requires '/' !in part
    ensures Parts(part + "/" + rest) == [part] + Parts(rest)
  {
    var t := part + "/" + rest;
    if part == "" {
      assert t[0] == '/' && t[1..] == rest;
    } else {
      assert t[0] == part[0] && t[1..] == part[1..] + "/" + rest && part[0] in part;
      PartThen(part[1..], rest);
      assert [part[0]] + part[1..] == part && ([part[1..]] + Parts(rest))[1..] == Parts(rest);
    }
  }

  lemma {:induction false} SlashedHasParts(p: Path)
    requires p != [] && NoSlash(p)
    ensures Parts(Slashed(p)) == p
  {
    if |p| == 1 {
      OnePart(p[0]);
      assert [p[0]] == p;
    } else {
      SlashedHasParts(p[1..]);
      PartThen(p[0], Slashed(p[1..]));
      assert [p[0]] + p[1..] == p;
    }
  }

  lemma AllowedExactly(c: char)
    ensures AllowedChar(c) <==> c == '/' || PartChar(c)
  {
  }

  lemma {:induction false} CharsOfParts(p: Path)
    ensures forall c: char | c != '/' :: c in Slashed(p) <==> exists i | 0 <= i < |p| :: c in p[i]
  {
    if |p| > 1 {
      CharsOfParts(p[1..]);
      forall c: char | c != '/' ensures c in Slashed(p) <==> exists i | 0 <= i < |p| :: c in p[i] {
        assert c in Slashed(p) <==> c in p[0] || c in Slashed(p[1..]);
        if c in Slashed(p[1..]) {
          var i :| 0 <= i < |p[1..]| && c in p[1..][i];
          assert c in p[i + 1];
        }
        if i :| 0 <= i < |p| && c in p[i] && i > 0 { assert c in p[1..][i - 1]; }
      }
    }
  }

  lemma PartsOfGood(p: Path)
    requires GoodPath(p)
    ensures NoSlash(p) && SafeParts(p)
  {
    forall i | 0 <= i < |p| ensures '/' !in p[i] && p[i] !in {"", ".", ".."} { assert GoodPart(p[i]); }
  }

  /** A written path is accepted as these parts exactly when it is these parts with
      slashes between them, none is empty, "." or "..", and all characters are
      among the listed. */
  lemma PathExactlyWhen(value: string, p: Path)
    ensures RelativeParts(value) == Some(p) <==> GoodPath(p) && value == Slashed(p)
  {
    PartsAreSlashed(value);
    if GoodPath(p) && value == Slashed(p) {
      PartsOfGood(p);
      SlashedHasParts(p);
      CharsOfParts(p);
      forall i | 0 <= i < |value| ensures AllowedChar(value[i]) {
        AllowedExactly(value[i]);
        assert value[i] in value;
        if value[i] != '/' {
          var j :| 0 <= j < |p| && value[i] in p[j];
          assert GoodPart(p[j]);
        }
      }
    }
    if RelativeParts(value) == Some(p) {
      CharsOfParts(p);
      forall i | 0 <= i < |p| ensures GoodPart(p[i]) {
        forall j | 0 <= j < |p[i]| ensures PartChar(p[i][j]) {
          assert p[i][j] in p[i] && '/' !in p[i];
          assert p[i][j] in value;
          AllowedExactly(p[i][j]);
        }
      }
    }
  }

  function ApprovedBefore(lines: seq<Line>, i: nat): nat
    requires i <= |lines|
  {
    if i == 0 then 0 else ApprovedBefore(lines, i - 1) + (if lines[i - 1].Approved? then 1 else 0)
  }

  ghost predicate GoodLine(line: Line) {
    line.Blank? || (line.Approved? && exists p :: GoodPath(p) && line.value == Slashed(p))
  }

  /** The rows of an approval: refused exactly when some line is no row or writes a
      bad path, and otherwise the rows as written, in their order. */
  ghost predicate AsWritten(lines: seq<Line>, rows: seq<Row>) {
    && |rows| == ApprovedBefore(lines, |lines|)
    && forall i | 0 <= i < |lines| :: AsWrittenAt(lines, rows, i)
  }

  lemma {:induction false} CountOfPrefix(lines: seq<Line>, n: nat, i: nat)
    requires i <= n <= |lines|
    ensures ApprovedBefore(lines[..n], i) == ApprovedBefore(lines, i)
  {
    if i > 0 {
      CountOfPrefix(lines, n, i - 1);
      assert lines[..n][i - 1] == lines[i - 1];
    }
  }

  lemma LineExactlyWhen(line: Line)
    requires line.Approved?
    ensures RelativeParts(line.value).Some? <==> GoodLine(line)
  {
    if RelativeParts(line.value).Some? { PathExactlyWhen(line.value, RelativeParts(line.value).value); }
    if GoodLine(line) {
      var p :| GoodPath(p) && line.value == Slashed(p);
      PathExactlyWhen(line.value, p);
    }
  }

  lemma {:induction false} RowsExactlyWhen(lines: seq<Line>)
    ensures Rows(lines).Some? <==> forall i | 0 <= i < |lines| :: GoodLine(lines[i])
    ensures Rows(lines).Some? ==> AsWritten(lines, Rows(lines).value)
    decreases |lines|
  {
    if lines != [] {
      var n := |lines| - 1;
      var front, last := lines[..n], lines[n];
      RowsExactlyWhen(front);
      assert (forall i | 0 <= i < |lines| :: GoodLine(lines[i])) <==>
             (forall i | 0 <= i < n :: GoodLine(front[i])) && GoodLine(last) by {
        assert forall i | 0 <= i < n :: front[i] == lines[i];
      }
      if last.Approved? { LineExactlyWhen(last); }
      if Rows(lines).Some? { RowsStay(lines, n, Rows(front).value, Rows(lines).value); }
    }
  }

  ghost predicate AsWrittenAt(lines: seq<Line>, rows: seq<Row>, i: nat)
    requires i < |lines|
  {
    lines[i].Approved? ==>
      && ApprovedBefore(lines, i) < |rows|
      && rows[ApprovedBefore(lines, i)].digest == lines[i].digest
      && GoodPath(rows[ApprovedBefore(lines, i)].path)
      && Slashed(rows[ApprovedBefore(lines, i)].path) == lines[i].value
  }

  lemma RowStays(lines: seq<Line>, n: nat, before: seq<Row>, rows: seq<Row>, i: nat)
    requires i < n <= |lines| && before <= rows && AsWrittenAt(lines[..n], before, i)
    ensures AsWrittenAt(lines, rows, i)
  {
    CountOfPrefix(lines, n, i);
    assert lines[..n][i] == lines[i];
  }

  lemma OneLineMore(lines: seq<Line>, n: nat, last: Line, before: seq<Row>, rows: seq<Row>)
    requires n + 1 == |lines| && last == lines[n] && Rows(lines) == Some(rows) && Rows(lines[..n]) == Some(before)
    ensures rows == if last.Approved? then before + [Row(last.digest, rows[|rows| - 1].path)] else before
    ensures last.Approved? ==> RelativeParts(last.value) == Some(rows[|rows| - 1].path)
    ensures ApprovedBefore(lines, n + 1) == ApprovedBefore(lines, n) + (if last.Approved? then 1 else 0)
  {
  }

  lemma RowsStay(lines: seq<Line>, n: nat, before: seq<Row>, rows: seq<Row>)
    requires n + 1 == |lines| && Rows(lines) == Some(rows) && Rows(lines[..n]) == Some(before)
    requires AsWritten(lines[..n], before)
    ensures AsWritten(lines, rows)
  {
    CountOfPrefix(lines, n, n);
    OneLineMore(lines, n, lines[n], before, rows);
    if lines[n].Approved? { PathExactlyWhen(lines[n].value, rows[|before|].path); }
    forall i | 0 <= i < |lines| ensures AsWrittenAt(lines, rows, i) {
      if i < n {
        assert AsWrittenAt(lines[..n], before, i);
        RowStays(lines, n, before, rows, i);
      }
    }
  }

  // ---- When a sequence of operations succeeds ---------------------------------------------

  /** The store has room for the operation, or its result already. */
  predicate Fits(hash: Bytes -> Digest, s: Store, op: Op) {
    op.path in s ==>
      if op.Make? then s[op.path] == Directory else s[op.path].File? && hash(s[op.path].content) == op.digest
  }

  predicate Agree(a: Op, b: Op) {
    a.path == b.path ==> a.Make? == b.Make? && (a.Link? && b.Link? ==> a.digest == b.digest)
  }

  ghost predicate AllFit(hash: Bytes -> Digest, s: Store, ops: seq<Op>) {
    forall i | 0 <= i < |ops| :: Fits(hash, s, ops[i])
  }

  ghost predicate AllAgree(ops: seq<Op>) { forall i, j | 0 <= i < j < |ops| :: Agree(ops[i], ops[j]) }

  lemma FitsLater(hash: Bytes -> Digest, s: Store, a: Op, b: Op)
    requires Fits(hash, s, a) && (a.Link? ==> hash(a.content) == a.digest)
    ensures Do(hash, s, a).Some?
    ensures Fits(hash, Do(hash, s, a).value, b) <==> Fits(hash, s, b) && Agree(a, b)
  {
  }

  lemma {:induction false} RunsExactlyWhen(hash: Bytes -> Digest, s: Store, ops: seq<Op>)
    requires Faithful(hash, ops)
    ensures Run(hash, s, ops).ok <==> AllFit(hash, s, ops) && AllAgree(ops)
    decreases |ops|
  {
    if ops != [] {
      var rest := ops[1..];
      assert Faithful(hash, rest);
      if Fits(hash, s, ops[0]) {
        FitsLater(hash, s, ops[0], ops[0]);
        var n := Do(hash, s, ops[0]).value;
        RunsExactlyWhen(hash, n, rest);
        Unrolled(hash, s, n, ops);
      }
    }
  }

  lemma Unrolled(hash: Bytes -> Digest, s: Store, n: Store, ops: seq<Op>)
    requires ops != [] && Fits(hash, s, ops[0]) && Faithful(hash, ops) && Do(hash, s, ops[0]) == Some(n)
    ensures AllFit(hash, n, ops[1..]) && AllAgree(ops[1..]) <==> AllFit(hash, s, ops) && AllAgree(ops)
  {
    var rest := ops[1..];
    forall i | 0 <= i < |rest|
      ensures Fits(hash, n, rest[i]) <==> Fits(hash, s, ops[i + 1]) && Agree(ops[0], ops[i + 1])
    {
      assert rest[i] == ops[i + 1];
      FitsLater(hash, s, ops[0], rest[i]);
    }
    if AllFit(hash, n, rest) && AllAgree(rest) {
      forall i | 0 <= i < |ops| ensures Fits(hash, s, ops[i]) {
        if i > 0 { assert Fits(hash, n, rest[i - 1]); }
      }
      forall i, j | 0 <= i < j < |ops| ensures Agree(ops[i], ops[j]) {
        assert Fits(hash, n, rest[j - 1]);
        if i > 0 { assert Agree(rest[i - 1], rest[j - 1]); }
      }
    }
    if AllFit(hash, s, ops) && AllAgree(ops) {
      forall i | 0 <= i < |rest| ensures Fits(hash, n, rest[i]) { assert Agree(ops[0], ops[i + 1]); }
      forall i, j | 0 <= i < j < |rest| ensures Agree(rest[i], rest[j]) { assert Agree(ops[i + 1], ops[j + 1]); }
    }
  }

  ghost predicate Adds(ops: seq<Op>, p: Path, node: Node) {
    exists i | 0 <= i < |ops| :: ops[i].path == p && node == if ops[i].Make? then Directory else File(ops[i].content)
  }

  /** Whatever is new in the store is what some operation puts there. */
  lemma {:induction false} NothingElseIsNew(hash: Bytes -> Digest, s: Store, ops: seq<Op>, p: Path)
    requires p in Run(hash, s, ops).store && p !in s
    ensures Adds(ops, p, Run(hash, s, ops).store[p])
    decreases |ops|
  {
    var n, rest := Do(hash, s, ops[0]).value, ops[1..];
    var node := Run(hash, s, ops).store[p];
    if p in n {
      StoreKeeps(hash, n, rest, p);
      assert ops[0].path == p;
    } else {
      NothingElseIsNew(hash, n, rest, p);
      var i :| 0 <= i < |rest| && rest[i].path == p
               && node == if rest[i].Make? then Directory else File(rest[i].content);
      assert ops[i + 1] == rest[i];
    }
  }

  lemma {:induction false} StoreKeeps(hash: Bytes -> Digest, s: Store, ops: seq<Op>, p: Path)
    requires p in s
    ensures p in Run(hash, s, ops).store && Run(hash, s, ops).store[p] == s[p]
    decreases |ops|
  {
    if ops != [] && Do(hash, s, ops[0]).Some? { StoreKeeps(hash, Do(hash, s, ops[0]).value, ops[1..], p); }
  }

  // ---- The operations of an approval ----------------------------------------------------------

  predicate MakesFor(row: Row, op: Op) {
    op.Make? && 1 <= |op.path| < |row.path| && op.path == row.path[..|op.path|]
  }

  /** A directory above a row's path, or the row's own file. */
  predicate OpOf(row: Row, content: Bytes, op: Op) {
    MakesFor(row, op) || op == Link(row.path, row.digest, content)
  }

  lemma {:induction false} ParentsAre(path: Path, n: nat, op: Op)
    requires n <= |path|
    ensures op in MakeParents(path, n) <==> op.Make? && 1 <= |op.path| <= n && op.path == path[..|op.path|]
  {
    if n > 0 {
      ParentsAre(path, n - 1, op);
      assert op in MakeParents(path, n) <==> op in MakeParents(path, n - 1) || op == Make(path[..n]);
    }
  }

  lemma RowOpsAre(row: Row, content: Bytes, op: Op)
    requires row.path != []
    ensures op in RowOps(row, content) <==> OpOf(row, content, op)
  {
    ParentsAre(row.path, |row.path| - 1, op);
    assert op in RowOps(row, content) <==> op in Parents(row) || op == Link(row.path, row.digest, content);
  }

  ghost predicate OpFor(rows: seq<Row>, contents: seq<Bytes>, n: nat, op: Op)
    requires n <= |rows| && n <= |contents|
  {
    exists i | 0 <= i < n :: OpOf(rows[i], contents[i], op)
  }

  lemma {:induction false} AllOpsAre(rows: seq<Row>, contents: seq<Bytes>, n: nat, op: Op)
    requires n <= |rows| && n <= |contents| && forall i | 0 <= i < |rows| :: rows[i].path != []
    ensures op in AllOps(rows, contents, n) <==> OpFor(rows, contents, n, op)
  {
    if n > 0 {
      AllOpsAre(rows, contents, n - 1, op);
      RowOpsAre(rows[n - 1], contents[n - 1], op);
      assert op in AllOps(rows, contents, n) <==>
             op in AllOps(rows, contents, n - 1) || op in RowOps(rows[n - 1], contents[n - 1]);
      if OpFor(rows, contents, n, op) {
        var i :| 0 <= i < n && OpOf(rows[i], contents[i], op);
        if i < n - 1 { assert OpFor(rows, contents, n - 1, op); }
      }
    }
  }

  // ---- When a promotion publishes ----------------------------------------------------------------

  ghost predicate IncomingIsGood(hash: Bytes -> Digest, incoming: Incoming, rows: seq<Row>) {
    forall i | 0 <= i < |rows| ::
      && rows[i].path in incoming && |incoming[rows[i].path]| <= 268435456
      && hash(incoming[rows[i].path]) == rows[i].digest
  }

  /** Each path is free or holds a file of the approved digest. */
  ghost predicate FilesFit(hash: Bytes -> Digest, s: Store, rows: seq<Row>) {
    forall i | 0 <= i < |rows| && rows[i].path in s ::
      s[rows[i].path].File? && hash(s[rows[i].path].content) == rows[i].digest
  }

  /** Nothing but directories stands above a path. */
  ghost predicate FoldersFit(s: Store, rows: seq<Row>) {
    forall i, k | 0 <= i < |rows| && 1 <= k < |rows[i].path| ::
      rows[i].path[..k] in s ==> s[rows[i].path[..k]] == Directory
  }

  /** No approved path lies below another. */
  ghost predicate NoneBelow(rows: seq<Row>) {
    forall i, j, k | 0 <= i < |rows| && 0 <= j < |rows| && 1 <= k < |rows[i].path| :: rows[i].path[..k] != rows[j].path
  }

  ghost predicate Approvable(rows: seq<Row>) {
    Unique(rows) && forall i | 0 <= i < |rows| :: rows[i].path != []
  }

  lemma MakeIsAmong(rows: seq<Row>, contents: seq<Bytes>, i: nat, k: nat) returns (x: nat)
    requires Approvable(rows) && |contents| == |rows| && i < |rows| && 1 <= k < |rows[i].path|
    ensures x < |AllOps(rows, contents, |rows|)| && AllOps(rows, contents, |rows|)[x] == Make(rows[i].path[..k])
  {
    var op := Make(rows[i].path[..k]);
    assert OpOf(rows[i], contents[i], op);
    AllOpsAre(rows, contents, |rows|, op);
    x :| 0 <= x < |AllOps(rows, contents, |rows|)| && AllOps(rows, contents, |rows|)[x] == op;
  }

  lemma LinkIsAmong(rows: seq<Row>, contents: seq<Bytes>, i: nat) returns (x: nat)
    requires Approvable(rows) && |contents| == |rows| && i < |rows|
    ensures x < |AllOps(rows, contents, |rows|)|
    ensures AllOps(rows, contents, |rows|)[x] == Link(rows[i].path, rows[i].digest, contents[i])
  {
    var op := Link(rows[i].path, rows[i].digest, contents[i]);
    assert OpOf(rows[i], contents[i], op);
    AllOpsAre(rows, contents, |rows|, op);
    x :| 0 <= x < |AllOps(rows, contents, |rows|)| && AllOps(rows, contents, |rows|)[x] == op;
  }

  lemma WhoseOp(rows: seq<Row>, contents: seq<Bytes>, x: nat) returns (i: nat)
    requires Approvable(rows) && |contents| == |rows| && x < |AllOps(rows, contents, |rows|)|
    ensures i < |rows| && OpOf(rows[i], contents[i], AllOps(rows, contents, |rows|)[x])
  {
    var op := AllOps(rows, contents, |rows|)[x];
    assert op in AllOps(rows, contents, |rows|);
    AllOpsAre(rows, contents, |rows|, op);
    i :| 0 <= i < |rows| && OpOf(rows[i], contents[i], op);
  }

  lemma FitExactlyWhen(hash: Bytes -> Digest, s: Store, rows: seq<Row>, contents: seq<Bytes>, ops: seq<Op>)
    requires Approvable(rows) && |contents| == |rows| && ops == AllOps(rows, contents, |rows|)
    ensures AllFit(hash, s, ops) <==> FilesFit(hash, s, rows) && FoldersFit(s, rows)
  {
    if AllFit(hash, s, ops) {
      forall i | 0 <= i < |rows| && rows[i].path in s
        ensures s[rows[i].path].File? && hash(s[rows[i].path].content) == rows[i].digest
      {
        var x := LinkIsAmong(rows, contents, i);
        assert Fits(hash, s, ops[x]);
      }
      forall i, k | 0 <= i < |rows| && 1 <= k < |rows[i].path|
        ensures rows[i].path[..k] in s ==> s[rows[i].path[..k]] == Directory
      {
        var x := MakeIsAmong(rows, contents, i, k);
        assert Fits(hash, s, ops[x]);
      }
    }
    if FilesFit(hash, s, rows) && FoldersFit(s, rows) {
      forall x | 0 <= x < |ops| ensures Fits(hash, s, ops[x]) {
        var i := WhoseOp(rows, contents, x);
      }
    }
  }

  lemma AgreeExactlyWhen(rows: seq<Row>, contents: seq<Bytes>, ops: seq<Op>)
    requires Approvable(rows) && |contents| == |rows| && ops == AllOps(rows, contents, |rows|)
    ensures AllAgree(ops) <==> NoneBelow(rows)
  {
    if AllAgree(ops) {
      forall i, j, k | 0 <= i < |rows| && 0 <= j < |rows| && 1 <= k < |rows[i].path|
        ensures rows[i].path[..k] != rows[j].path
      {
        var x := MakeIsAmong(rows, contents, i, k);
        var y := LinkIsAmong(rows, contents, j);
        assert Agree(ops[if x < y then x else y], ops[if x < y then y else x]);
      }
    }
    if NoneBelow(rows) {
      forall x, y | 0 <= x < y < |ops| ensures Agree(ops[x], ops[y]) {
        var i := WhoseOp(rows, contents, x);
        var j := WhoseOp(rows, contents, y);
        OpsAgree(rows, contents, i, j, ops[x], ops[y]);
      }
    }
  }

  lemma OpsAgree(rows: seq<Row>, contents: seq<Bytes>, i: nat, j: nat, a: Op, b: Op)
    requires Approvable(rows) && NoneBelow(rows) && |contents| == |rows| && i < |rows| && j < |rows|
    requires OpOf(rows[i], contents[i], a) && OpOf(rows[j], contents[j], b)
    ensures Agree(a, b)
  {
    if MakesFor(rows[i], a) { FolderIsNoFile(rows, i, j, a); }
    if MakesFor(rows[j], b) { FolderIsNoFile(rows, j, i, b); }
    if i < j { assert rows[i].path != rows[j].path; }
    if j < i { assert rows[j].path != rows[i].path; }
  }

  lemma FolderIsNoFile(rows: seq<Row>, i: nat, j: nat, op: Op)
    requires NoneBelow(rows) && i < |rows| && j < |rows| && MakesFor(rows[i], op)
    ensures op.path != rows[j].path
  {
    assert rows[i].path[..|op.path|] != rows[j].path;
  }

  lemma SeenFits(hash: Bytes -> Digest, s: Store, rows: seq<Row>)
    requires Plain(rows) && Approvable(rows)
    ensures FilesFit(hash, Seen(s), rows) <==> FilesFit(hash, s, rows)
    ensures FoldersFit(Seen(s), rows) <==> FoldersFit(s, rows)
  {
    forall i | 0 <= i < |rows| ensures !IsTemp(rows[i].path) { assert PlainPath(rows[i].path); }
    forall i, k | 0 <= i < |rows| && 1 <= k < |rows[i].path| ensures !IsTemp(rows[i].path[..k]) {
      assert PlainPath(rows[i].path);
      assert rows[i].path[..k][k - 1] == rows[i].path[k - 1];
    }
  }

  /** A promotion succeeds exactly when every incoming file is there, no larger than
      256 MiB and of its approved digest, what is already there is not in the way,
      and no approved path lies below another. */
  lemma PublishesExactlyWhen(hash: Bytes -> Digest, s: Store, rows: seq<Row>, incoming: Incoming, names: seq<string>)
    requires |names| >= |rows| && Approvable(rows) && Plain(rows) && NewNames(s, rows, names)
    ensures Promoted(hash, s, rows, incoming, names).ok <==>
      && IncomingIsGood(hash, incoming, rows)
      && FilesFit(hash, s, rows) && FoldersFit(s, rows) && NoneBelow(rows)
  {
    VerifiedExactlyWhen(hash, incoming, rows);
    if IncomingIsGood(hash, incoming, rows) {
      var contents := Contents(incoming, rows);
      var ops := AllOps(rows, contents, |rows|);
      PromotionIsVisible(hash, s, rows, contents, names);
      OpsAreFaithful(hash, rows, incoming, |rows|);
      RunsExactlyWhen(hash, Seen(s), ops);
      FitExactlyWhen(hash, Seen(s), rows, contents, ops);
      AgreeExactlyWhen(rows, contents, ops);
      SeenFits(hash, s, rows);
    }
  }

  lemma VerifiedExactlyWhen(hash: Bytes -> Digest, incoming: Incoming, rows: seq<Row>)
    ensures (forall i | 0 <= i < |rows| :: Verifies(hash, incoming, rows[i])) <==> IncomingIsGood(hash, incoming, rows)
  {
    if forall i | 0 <= i < |rows| :: Verifies(hash, incoming, rows[i]) {
      forall i | 0 <= i < |rows|
        ensures rows[i].path in incoming && |incoming[rows[i].path]| <= 268435456
        ensures hash(incoming[rows[i].path]) == rows[i].digest
      {
        assert Verifies(hash, incoming, rows[i]);
      }
    }
  }

  /** A path a promotion may add, and what it holds then. */
  ghost predicate Publishes(rows: seq<Row>, incoming: Incoming, p: Path, node: Node) {
    exists i | 0 <= i < |rows| ::
      || (p == rows[i].path && p in incoming && node == File(incoming[p]))
      || (1 <= |p| < |rows[i].path| && p == rows[i].path[..|p|] && node == Directory)
  }

  /** The whole store after a promotion, successful or not: everything that was
      there is unchanged, and all that is new is an approved path with the very bytes
      that came in, or a directory above one. After a success each approved path
      is there, below directories. */
  lemma StoreAfter(hash: Bytes -> Digest, s: Store, rows: seq<Row>, incoming: Incoming, names: seq<string>, n: Store)
    requires |names| >= |rows| && Approvable(rows) && Plain(rows) && NewNames(s, rows, names)
    requires n == Promoted(hash, s, rows, incoming, names).store
    ensures forall p | p in s :: p in n && n[p] == s[p]
    ensures forall p | p in n && p !in s :: Publishes(rows, incoming, p, n[p])
    ensures Promoted(hash, s, rows, incoming, names).ok ==>
      forall i | 0 <= i < |rows| :: rows[i].path in n && n[rows[i].path].File? && FoldersAbove(n, rows[i].path)
  {
    if forall i | 0 <= i < |rows| :: Verifies(hash, incoming, rows[i]) {
      var contents := Contents(incoming, rows);
      var ops := AllOps(rows, contents, |rows|);
      PromotionIsVisible(hash, s, rows, contents, names);
      OpsAreFaithful(hash, rows, incoming, |rows|);
      RunKeeps(hash, Seen(s), ops);
      var end := Run(hash, Seen(s), ops);
      assert end == Outcome(Seen(n), Promoted(hash, s, rows, incoming, names).ok);
      forall p | p in s ensures p in n && n[p] == s[p] { OldStays(hash, s, rows, incoming, names, n, p); }
      forall p | p in n && p !in s ensures Publishes(rows, incoming, p, n[p]) {
        NewIsPublished(hash, s, rows, incoming, ops, n, p);
      }
      if end.ok {
        forall i | 0 <= i < |rows|
          ensures rows[i].path in n && n[rows[i].path].File? && FoldersAbove(n, rows[i].path)
        {
          DoneFor(hash, Seen(n), rows, contents, ops, i);
        }
      }
    }
  }

  /** What nobody's hidden file is stays as it is. */
  lemma {:induction false} StrangerStays(hash: Bytes -> Digest, s: Store, steps: seq<Step>, open: Option<Path>, p: Path)
    requires p in s && open != Some(p) && Alternates(steps, open)
    requires forall i | 0 <= i < |steps| && steps[i].Create? :: steps[i].temp != p
    ensures p in Whole(hash, s, steps, open).store && Whole(hash, s, steps, open).store[p] == s[p]
    decreases |steps|
  {
    if steps != [] {
      var n := DoStep(hash, s, steps[0]);
      if n.Some? {
        assert forall i | 0 <= i < |steps[1..]| :: steps[1..][i] == steps[i + 1];
        StrangerStays(hash, n.value, steps[1..], OpenAfter(open, steps[0]), p);
      }
    }
  }

  lemma OldStays(hash: Bytes -> Digest, s: Store, rows: seq<Row>, incoming: Incoming, names: seq<string>, n: Store,
                 p: Path)
    requires |names| >= |rows| && Plain(rows) && NewNames(s, rows, names) && p in s
    requires n == Whole(hash, s, AllSteps(rows, Contents(incoming, rows), names, |rows|), None).store
    ensures p in n && n[p] == s[p]
  {
    var contents := Contents(incoming, rows);
    StepsAreProper(s, rows, contents, names, |rows|);
    StepsAlternate(rows, contents, names, |rows|);
    StrangerStays(hash, s, AllSteps(rows, contents, names, |rows|), None, p);
  }

  lemma NewIsPublished(hash: Bytes -> Digest, s: Store, rows: seq<Row>, incoming: Incoming, ops: seq<Op>, n: Store,
                       p: Path)
    requires Approvable(rows) && ops == AllOps(rows, Contents(incoming, rows), |rows|)
    requires forall i | 0 <= i < |rows| :: Verifies(hash, incoming, rows[i])
    requires Run(hash, Seen(s), ops).store == Seen(n) && Temps(n) == Temps(s) && p in n && p !in s
    ensures Publishes(rows, incoming, p, n[p])
  {
    assert p in Temps(n) ==> p in Temps(s);
    assert p in Seen(n) && p !in Seen(s);
    NothingElseIsNew(hash, Seen(s), ops, p);
    AddsOnlyRows(hash, rows, incoming, ops, p, n[p]);
  }

  ghost predicate FoldersAbove(n: Store, p: Path) {
    forall k | 1 <= k < |p| :: p[..k] in n && n[p[..k]] == Directory
  }

  lemma DoneFor(hash: Bytes -> Digest, n: Store, rows: seq<Row>, contents: seq<Bytes>, ops: seq<Op>, i: nat)
    requires Approvable(rows) && |contents| == |rows| && ops == AllOps(rows, contents, |rows|) && i < |rows|
    requires forall x | 0 <= x < |ops| :: IsDone(hash, n, ops[x])
    ensures rows[i].path in n && n[rows[i].path].File? && FoldersAbove(n, rows[i].path)
  {
    var x := LinkIsAmong(rows, contents, i);
    assert IsDone(hash, n, ops[x]);
    forall k | 1 <= k < |rows[i].path| ensures rows[i].path[..k] in n && n[rows[i].path[..k]] == Directory {
      var y := MakeIsAmong(rows, contents, i, k);
      assert IsDone(hash, n, ops[y]);
    }
  }

  lemma AddsOnlyRows(hash: Bytes -> Digest, rows: seq<Row>, incoming: Incoming, ops: seq<Op>, p: Path, node: Node)
    requires Approvable(rows) && ops == AllOps(rows, Contents(incoming, rows), |rows|) && Adds(ops, p, node)
    requires forall i | 0 <= i < |rows| :: Verifies(hash, incoming, rows[i])
    ensures Publishes(rows, incoming, p, node)
  {
    var x :| 0 <= x < |ops| && ops[x].path == p && node == if ops[x].Make? then Directory else File(ops[x].content);
    var i := WhoseOp(rows, Contents(incoming, rows), x);
    assert Verifies(hash, incoming, rows[i]);
  }
}
