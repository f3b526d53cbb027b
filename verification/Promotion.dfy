/** Promotion of reviewed artifacts: verify everything, then publish, never over
    anything that is there. */
module Promotion {
  import opened Outcomes

  type Bytes = seq<int>
  type Digest = nat
  type Path = seq<string>

  datatype Node = Directory | File(content: Bytes) | Other

  type Store = map<Path, Node>

  datatype Row = Row(digest: Digest, path: Path)

  datatype PromoteError = InvalidApproval | NotVerified | CannotPublish

  const SIZE_LIMIT := 268435456

  // ---- Approval ------------------------------------------------------------------

  predicate AllowedChar(c: char) {
    'A' <= c <= 'Z' || 'a' <= c <= 'z' || '0' <= c <= '9' || c in {'_', '.', '/', '+', '@', '=', '-'}
  }

  /** Splitting at slashes. */
  function Parts(value: string): (p: Path)
    ensures |p| >= 1
  {
    if value == "" then [""]
    else
      var p := Parts(value[1..]);
      if value[0] == '/' then [""] + p else [[value[0]] + p[0]] + p[1..]
  }

  predicate SafeParts(p: Path) { forall i | 0 <= i < |p| :: p[i] !in {"", ".", ".."} }

  function RelativeParts(value: string): Option<Path> {
    if SafeParts(Parts(value)) && forall i | 0 <= i < |value| :: AllowedChar(value[i]) then Some(Parts(value)) else None
  }

  /** A line of the approval: no row, a row as written, or neither. */
  datatype Line = Blank | Approved(digest: Digest, value: string) | Malformed

  function Rows(lines: seq<Line>): Option<seq<Row>> {
    if lines == [] then Some([])
    else
      var before, last := Rows(lines[..|lines| - 1]), lines[|lines| - 1];
      if before.None? || last.Malformed? then None
      else if last.Blank? then before
      else if RelativeParts(last.value).None? then None
      else Some(before.value + [Row(last.digest, RelativeParts(last.value).value)])
  }

  ghost predicate Unique(rows: seq<Row>) {
    forall i, j | 0 <= i < j < |rows| :: rows[i].path != rows[j].path
  }

  function Paths(rows: seq<Row>): set<Path> { set i | 0 <= i < |rows| :: rows[i].path }

  lemma {:induction false} UniqueByCount(rows: seq<Row>)
    ensures |Paths(rows)| <= |rows|
    ensures |Paths(rows)| == |rows| <==> Unique(rows)
  {
    if rows != [] {
      var n := |rows| - 1;
      var first, last := rows[..n], rows[n].path;
      UniqueByCount(first);
      assert Paths(rows) == Paths(first) + {last} by {
        forall p | p in Paths(first) ensures p in Paths(rows) {
          var i :| 0 <= i < n && first[i].path == p;
          assert rows[i].path == p;
        }
        assert forall i | 0 <= i < n :: rows[i] == first[i];
      }
      if Unique(rows) {
        assert Unique(first);
        forall i | 0 <= i < n ensures first[i].path != last { assert rows[i].path != rows[n].path; }
      }
      if Unique(first) && last !in Paths(first) {
        forall i, j | 0 <= i < j < |rows| ensures rows[i].path != rows[j].path {
          if j == n { assert first[i].path in Paths(first); } else { assert first[i].path != first[j].path; }
        }
      }
    }
  }

  // ---- Publication as atomic operations -----------------------------------------------

  /** Making one directory, or linking one finished file into place. */
  datatype Op = Make(path: Path) | Link(path: Path, digest: Digest, content: Bytes)

  /** None where the original raises. Nothing already there is ever changed. */
  function Do(hash: Bytes -> Digest, s: Store, op: Op): Option<Store> {
    match op
    case Make(p) => if p !in s then Some(s[p := Directory]) else if s[p] == Directory then Some(s) else None
    case Link(p, digest, content) =>
      if p !in s then Some(s[p := File(content)])
      else if s[p].File? && hash(s[p].content) == digest then Some(s)
      else None
  }

  datatype Outcome = Outcome(store: Store, ok: bool)

  /** The operations in order, up to the first that raises. */
  function Run(hash: Bytes -> Digest, s: Store, ops: seq<Op>): Outcome
    decreases |ops|
  {
    if ops == [] then Outcome(s, true)
    else
      var n := Do(hash, s, ops[0]);
      if n.None? then Outcome(s, false) else Run(hash, n.value, ops[1..])
  }

  function MakeParents(path: Path, n: nat): seq<Op>
    requires n <= |path|
  {
    if n == 0 then [] else MakeParents(path, n - 1) + [Make(path[..n])]
  }

  /** The directories above a row's path. */
  function Parents(row: Row): seq<Op> {
    if row.path == [] then [] else MakeParents(row.path, |row.path| - 1)
  }

  function RowOps(row: Row, content: Bytes): seq<Op> {
    Parents(row) + [Link(row.path, row.digest, content)]
  }

  function AllOps(rows: seq<Row>, contents: seq<Bytes>, n: nat): seq<Op>
    requires n <= |rows| && n <= |contents|
  {
    if n == 0 then [] else AllOps(rows, contents, n - 1) + RowOps(rows[n - 1], contents[n - 1])
  }

  /** Everything that was there stays as it was. */
  predicate Kept(s: Store, n: Store) {
    forall p | p in s :: p in n && n[p] == s[p]
  }

  /** The operation's result is already there. */
  predicate IsDone(hash: Bytes -> Digest, s: Store, op: Op) {
    match op
    case Make(p) => p in s && s[p] == Directory
    case Link(p, digest, _) => p in s && s[p].File? && hash(s[p].content) == digest
  }

  lemma DoKeeps(hash: Bytes -> Digest, s: Store, op: Op)
    requires Do(hash, s, op).Some? && (op.Link? ==> hash(op.content) == op.digest)
    ensures Kept(s, Do(hash, s, op).value) && IsDone(hash, Do(hash, s, op).value, op)
  {
  }

  ghost predicate Faithful(hash: Bytes -> Digest, ops: seq<Op>) {
    forall i | 0 <= i < |ops| && ops[i].Link? :: hash(ops[i].content) == ops[i].digest
  }

  lemma {:induction false} RunKeeps(hash: Bytes -> Digest, s: Store, ops: seq<Op>)
    requires Faithful(hash, ops)
    ensures Kept(s, Run(hash, s, ops).store)
    ensures Run(hash, s, ops).ok ==> forall i | 0 <= i < |ops| :: IsDone(hash, Run(hash, s, ops).store, ops[i])
    decreases |ops|
  {
    if ops != [] && Do(hash, s, ops[0]).Some? {
      var n := Do(hash, s, ops[0]).value;
      DoKeeps(hash, s, ops[0]);
      assert Faithful(hash, ops[1..]);
      RunKeeps(hash, n, ops[1..]);
      var end := Run(hash, s, ops);
      if end.ok {
        assert IsDone(hash, end.store, ops[0]);
        forall i | 0 <= i < |ops| ensures IsDone(hash, end.store, ops[i]) {
          if i > 0 { assert ops[i] == ops[1..][i - 1]; }
        }
      }
    }
  }

  lemma {:induction false} RunJoins(hash: Bytes -> Digest, s: Store, a: seq<Op>, b: seq<Op>)
    ensures Run(hash, s, a + b) == if Run(hash, s, a).ok then Run(hash, Run(hash, s, a).store, b) else Run(hash, s, a)
    decreases |a|
  {
    if a == [] {
      assert a + b == b;
    } else {
      assert (a + b)[0] == a[0] && (a + b)[1..] == a[1..] + b;
      if Do(hash, s, a[0]).Some? { RunJoins(hash, Do(hash, s, a[0]).value, a[1..], b); }
    }
  }

  lemma {:induction false} RunningDoneOps(hash: Bytes -> Digest, s: Store, ops: seq<Op>)
    requires forall i | 0 <= i < |ops| :: IsDone(hash, s, ops[i])
    ensures Run(hash, s, ops) == Outcome(s, true)
    decreases |ops|
  {
    if ops != [] {
      assert IsDone(hash, s, ops[0]);
      forall i | 0 <= i < |ops[1..]| ensures IsDone(hash, s, ops[1..][i]) { assert ops[1..][i] == ops[i + 1]; }
      RunningDoneOps(hash, s, ops[1..]);
    }
  }

  /** A publication stopped after any number of its operations and run again from
      the start ends with the same store and the same verdict as one that was not
      stopped, conflicts included. */
  lemma {:induction false} RerunIsTheSame(hash: Bytes -> Digest, s: Store, ops: seq<Op>, m: nat)
    requires Faithful(hash, ops) && m <= |ops|
    ensures Run(hash, Run(hash, s, ops[..m]).store, ops) == Run(hash, s, ops)
  {
    var first, more := ops[..m], ops[m..];
    assert ops == first + more;
    assert Faithful(hash, first);
    RunJoins(hash, s, first, more);
    var mid := Run(hash, s, first);
    if mid.ok {
      RunKeeps(hash, s, first);
      RunningDoneOps(hash, mid.store, first);
      RunJoins(hash, mid.store, first, more);
    } else {
      FailedRunFailsAgain(hash, s, first);
      RunJoins(hash, mid.store, first, more);
    }
  }

  lemma {:induction false} FailedRunFailsAgain(hash: Bytes -> Digest, s: Store, ops: seq<Op>)
    requires Faithful(hash, ops) && !Run(hash, s, ops).ok
    ensures Run(hash, Run(hash, s, ops).store, ops) == Run(hash, s, ops)
    decreases |ops|
  {
    var n, rest, end := Do(hash, s, ops[0]), ops[1..], Run(hash, s, ops);
    if n.Some? {
      assert Faithful(hash, rest);
      FailedRunFailsAgain(hash, n.value, rest);
      DoKeeps(hash, s, ops[0]);
      RunKeeps(hash, n.value, rest);
      assert IsDone(hash, end.store, ops[0]);
    }
  }

  // ---- The hidden file of each publication ---------------------------------------------------

  /** What a row really does: besides its visible operations it writes a hidden
      file first, links that into place, and removes it. */
  datatype Step = Visible(op: Op) | Create(temp: Path, content: Bytes) | Remove(temp: Path)

  const HIDDEN := ".promotion-"

  predicate IsTemp(p: Path) { p != [] && HIDDEN <= p[|p| - 1] }

  function Parent(p: Path): Path { if p == [] then [] else p[..|p| - 1] }

  function TempOf(row: Row, name: string): Path { Parent(row.path) + [HIDDEN + name] }

  function DoStep(hash: Bytes -> Digest, s: Store, step: Step): Option<Store> {
    match step
    case Visible(op) => Do(hash, s, op)
    case Create(t, content) => if t in s then None else Some(s[t := File(content)])
    case Remove(t) => Some(s - {t})
  }

  /** The hidden file there is, after a step. */
  function OpenAfter(open: Option<Path>, step: Step): Option<Path> {
    match step
    case Visible(_) => open
    case Create(t, _) => Some(t)
    case Remove(_) => None
  }

  /** Where the original raises it still removes the hidden file. */
  function Abandoned(s: Store, open: Option<Path>, step: Step): Store {
    match step
    case Create(t, _) => s - {t}
    case _ => if open.Some? then s - {open.value} else s
  }

  /** The steps in order, up to the first that raises. Killing the process leaves
      what a prefix of them leaves. */
  function Whole(hash: Bytes -> Digest, s: Store, steps: seq<Step>, open: Option<Path>): Outcome
    decreases |steps|
  {
    if steps == [] then Outcome(s, true)
    else
      var n := DoStep(hash, s, steps[0]);
      if n.None? then Outcome(Abandoned(s, open, steps[0]), false)
      else Whole(hash, n.value, steps[1..], OpenAfter(open, steps[0]))
  }

  /** The hidden file left when the process ends after these steps. */
  function Left(steps: seq<Step>, open: Option<Path>): Option<Path> {
    if steps == [] then open else Left(steps[1..], OpenAfter(open, steps[0]))
  }

  function Shown(ops: seq<Op>): (steps: seq<Step>)
    ensures |steps| == |ops| && forall i | 0 <= i < |ops| :: steps[i] == Visible(ops[i])
  {
    seq(|ops|, i requires 0 <= i < |ops| => Visible(ops[i]))
  }

  /** A finished file is made under its hidden name and linked into place. */
  function LastSteps(t: Path, content: Bytes, op: Op): (steps: seq<Step>) {
    [Create(t, content), Visible(op), Remove(t)]
  }

  function RowSteps(row: Row, content: Bytes, name: string): seq<Step> {
    Shown(Parents(row)) + LastSteps(TempOf(row, name), content, Link(row.path, row.digest, content))
  }

  function AllSteps(rows: seq<Row>, contents: seq<Bytes>, names: seq<string>, n: nat): seq<Step>
    requires n <= |rows| && n <= |contents| && n <= |names|
  {
    if n == 0 then []
    else AllSteps(rows, contents, names, n - 1) + RowSteps(rows[n - 1], contents[n - 1], names[n - 1])
  }

  lemma {:induction false} WholeJoins(hash: Bytes -> Digest, s: Store, a: seq<Step>, b: seq<Step>, open: Option<Path>)
    ensures Whole(hash, s, a + b, open) ==
      if Whole(hash, s, a, open).ok
      then Whole(hash, Whole(hash, s, a, open).store, b, Left(a, open))
      else Whole(hash, s, a, open)
    decreases |a|
  {
    if a == [] {
      assert a + b == b;
    } else {
      assert (a + b)[0] == a[0] && (a + b)[1..] == a[1..] + b;
      var n := DoStep(hash, s, a[0]);
      if n.Some? { WholeJoins(hash, n.value, a[1..], b, OpenAfter(open, a[0])); }
    }
  }

  lemma LastOutcome(hash: Bytes -> Digest, s: Store, t: Path, content: Bytes, op: Op)
    ensures Whole(hash, s, LastSteps(t, content, op), None) ==
      if t in s then Outcome(s - {t}, false)
      else
        var made := s[t := File(content)];
        var n := Do(hash, made, op);
        if n.None? then Outcome(made - {t}, false) else Outcome(n.value - {t}, true)
  {
    LastTails(t, content, op);
    if t !in s {
      var made := s[t := File(content)];
      var n := Do(hash, made, op);
      if n.Some? { assert Whole(hash, n.value, [Remove(t)], Some(t)) == Outcome(n.value - {t}, true); }
      assert Whole(hash, s, LastSteps(t, content, op), None) == Whole(hash, made, [Visible(op), Remove(t)], Some(t));
    }
  }

  // ---- What is seen, and what is hidden ---------------------------------------------------------

  function Seen(s: Store): Store { map p | p in s && !IsTemp(p) :: s[p] }

  function Temps(s: Store): set<Path> { set p | p in s && IsTemp(p) }

  function VisibleOps(steps: seq<Step>): seq<Op> {
    if steps == [] then [] else (if steps[0].Visible? then [steps[0].op] else []) + VisibleOps(steps[1..])
  }

  predicate ProperStep(step: Step) {
    match step
    case Visible(op) => !IsTemp(op.path)
    case Create(t, _) => IsTemp(t)
    case Remove(t) => IsTemp(t)
  }

  /** Hidden files have names nobody else has, and the store does not have yet. */
  ghost predicate Proper(s: Store, steps: seq<Step>) {
    && (forall i | 0 <= i < |steps| :: ProperStep(steps[i]))
    && (forall i | 0 <= i < |steps| && steps[i].Create? :: steps[i].temp !in s)
    && (forall i, j | 0 <= i < j < |steps| && steps[i].Create? && steps[j].Create? :: steps[i].temp != steps[j].temp)
  }

  /** A hidden file is created only when there is none and removed by its own step. */
  predicate Alternates(steps: seq<Step>, open: Option<Path>) {
    steps == [] ||
    (&& (steps[0].Create? ==> open.None?)
     && (steps[0].Remove? ==> open == Some(steps[0].temp))
     && Alternates(steps[1..], OpenAfter(open, steps[0])))
  }

  lemma SeenStep(hash: Bytes -> Digest, s: Store, step: Step)
    requires ProperStep(step) && (step.Create? ==> step.temp !in s)
    ensures step.Visible? ==>
      && Do(hash, Seen(s), step.op).Some? == DoStep(hash, s, step).Some?
      && (DoStep(hash, s, step).Some? ==> Do(hash, Seen(s), step.op) == Some(Seen(DoStep(hash, s, step).value)))
    ensures !step.Visible? ==> DoStep(hash, s, step).Some? && Seen(DoStep(hash, s, step).value) == Seen(s)
  {
    match step
    case Visible(Make(p)) => assert p !in s ==> Seen(s[p := Directory]) == Seen(s)[p := Directory];
    case Visible(Link(p, _, content)) => assert p !in s ==> Seen(s[p := File(content)]) == Seen(s)[p := File(content)];
    case _ =>
  }

  lemma ProperRest(hash: Bytes -> Digest, s: Store, steps: seq<Step>, n: Store)
    requires steps != [] && Proper(s, steps) && DoStep(hash, s, steps[0]) == Some(n)
    ensures Proper(n, steps[1..])
  {
    var rest := steps[1..];
    forall i | 0 <= i < |rest| && rest[i].Create? ensures rest[i].temp !in n {
      assert rest[i] == steps[i + 1] && ProperStep(steps[0]) && ProperStep(steps[i + 1]);
    }
  }

  lemma AbandonedSeen(s: Store, open: Option<Path>, step: Step)
    requires ProperStep(step) && (open.Some? ==> IsTemp(open.value))
    ensures Seen(Abandoned(s, open, step)) == Seen(s)
  {
  }

  /** Hidden files aside, the steps do exactly what their visible operations do. */
  lemma {:induction false} HiddenFilesAside(hash: Bytes -> Digest, s: Store, steps: seq<Step>, open: Option<Path>)
    requires Proper(s, steps) && (open.Some? ==> IsTemp(open.value))
    ensures Run(hash, Seen(s), VisibleOps(steps))
      == Outcome(Seen(Whole(hash, s, steps, open).store), Whole(hash, s, steps, open).ok)
    decreases |steps|
  {
    if steps != [] {
      var step, n := steps[0], DoStep(hash, s, steps[0]);
      assert ProperStep(step);
      SeenStep(hash, s, step);
      if n.None? {
        AbandonedSeen(s, open, step);
      } else {
        ProperRest(hash, s, steps, n.value);
        HiddenFilesAside(hash, n.value, steps[1..], OpenAfter(open, step));
      }
      if step.Visible? {
        assert VisibleOps(steps)[0] == step.op && VisibleOps(steps)[1..] == VisibleOps(steps[1..]);
      } else {
        assert VisibleOps(steps) == VisibleOps(steps[1..]);
      }
    }
  }

  function SetOf(o: Option<Path>): set<Path> { if o.Some? then {o.value} else {} }

  lemma TempsStep(hash: Bytes -> Digest, s: Store, step: Step, open: Option<Path>)
    requires ProperStep(step) && DoStep(hash, s, step).Some? && Alternates([step], open)
    requires SetOf(open) <= Temps(s)
    ensures var n := DoStep(hash, s, step).value;
      SetOf(OpenAfter(open, step)) <= Temps(n) && Temps(n) - SetOf(OpenAfter(open, step)) == Temps(s) - SetOf(open)
  {
  }

  /** After steps that ran through, at most the one open hidden file has been added;
      after steps that raised, none. */
  lemma {:induction false} OneHiddenFile(hash: Bytes -> Digest, s: Store, steps: seq<Step>, open: Option<Path>)
    requires Proper(s, steps) && Alternates(steps, open) && SetOf(open) <= Temps(s)
    ensures var w := Whole(hash, s, steps, open);
      Temps(w.store) == (Temps(s) - SetOf(open)) + (if w.ok then SetOf(Left(steps, open)) else {})
    decreases |steps|
  {
    if steps != [] {
      var step, n := steps[0], DoStep(hash, s, steps[0]);
      assert ProperStep(step);
      if n.Some? {
        assert Alternates([step], open);
        TempsStep(hash, s, step, open);
        ProperRest(hash, s, steps, n.value);
        OneHiddenFile(hash, n.value, steps[1..], OpenAfter(open, step));
      }
    }
  }

  // ---- The steps of a publication are such steps --------------------------------------------------

  predicate PlainPath(p: Path) { forall i | 0 <= i < |p| :: !(HIDDEN <= p[i]) }

  ghost predicate Plain(rows: seq<Row>) { forall i | 0 <= i < |rows| :: PlainPath(rows[i].path) }

  ghost predicate NewNames(s: Store, rows: seq<Row>, names: seq<string>)
    requires |names| >= |rows|
  {
    && (forall i | 0 <= i < |rows| :: TempOf(rows[i], names[i]) !in s)
    && (forall i, j | 0 <= i < j < |rows| :: names[i] != names[j])
  }

  lemma TempsDiffer(a: Row, x: string, b: Row, y: string)
    requires x != y
    ensures TempOf(a, x) != TempOf(b, y)
  {
    var s, t := TempOf(a, x), TempOf(b, y);
    assert s[|s| - 1] == HIDDEN + x && t[|t| - 1] == HIDDEN + y;
    assert (HIDDEN + x)[|HIDDEN|..] == x && (HIDDEN + y)[|HIDDEN|..] == y;
  }

  lemma {:induction false} ParentsArePlain(path: Path, n: nat)
    requires PlainPath(path) && n <= |path|
    ensures forall i | 0 <= i < |MakeParents(path, n)| :: !IsTemp(MakeParents(path, n)[i].path)
  {
    if n > 0 { ParentsArePlain(path, n - 1); }
  }

  lemma RowStepsAreProper(row: Row, content: Bytes, name: string)
    requires PlainPath(row.path)
    ensures forall i | 0 <= i < |RowSteps(row, content, name)| :: ProperStep(RowSteps(row, content, name)[i])
    ensures forall i | 0 <= i < |RowSteps(row, content, name)| && RowSteps(row, content, name)[i].Create? ::
      i == |RowSteps(row, content, name)| - 3 && RowSteps(row, content, name)[i].temp == TempOf(row, name)
  {
    if row.path != [] { ParentsArePlain(row.path, |row.path| - 1); }
    var t := TempOf(row, name);
    assert t[|t| - 1] == HIDDEN + name;
  }

  /** Every hidden file of the steps belongs to one of the first `n` rows. */
  ghost predicate Owned(steps: seq<Step>, rows: seq<Row>, names: seq<string>, n: nat)
    requires n <= |rows| && n <= |names|
  {
    forall i | 0 <= i < |steps| && steps[i].Create? ::
      exists k :: 0 <= k < n && steps[i].temp == TempOf(rows[k], names[k])
  }

  lemma {:induction false} StepsAreProper(s: Store, rows: seq<Row>, contents: seq<Bytes>, names: seq<string>, n: nat)
    requires |contents| == |rows| && |names| >= |rows| && n <= |rows| && Plain(rows) && NewNames(s, rows, names)
    ensures Proper(s, AllSteps(rows, contents, names, n)) && Owned(AllSteps(rows, contents, names, n), rows, names, n)
  {
    if n > 0 {
      StepsAreProper(s, rows, contents, names, n - 1);
      ProperRowMore(s, rows, contents, names, n, AllSteps(rows, contents, names, n - 1));
    }
  }

  lemma ProperRowMore(s: Store, rows: seq<Row>, contents: seq<Bytes>, names: seq<string>, n: nat, a: seq<Step>)
    requires 1 <= n <= |rows| <= |names| && |contents| == |rows| && Plain(rows) && NewNames(s, rows, names)
    requires a == AllSteps(rows, contents, names, n - 1) && Proper(s, a) && Owned(a, rows, names, n - 1)
    ensures Proper(s, AllSteps(rows, contents, names, n)) && Owned(AllSteps(rows, contents, names, n), rows, names, n)
  {
    var b := RowSteps(rows[n - 1], contents[n - 1], names[n - 1]);
    OneRowMore(rows, contents, names, n, a, b);
    RowStepsAreProper(rows[n - 1], contents[n - 1], names[n - 1]);
    forall i, j | 0 <= i < |a| && 0 <= j < |b| && a[i].Create? && b[j].Create? ensures a[i].temp != b[j].temp {
      var k :| 0 <= k < n - 1 && a[i].temp == TempOf(rows[k], names[k]);
      TempsDiffer(rows[k], names[k], rows[n - 1], names[n - 1]);
    }
    ProperTogether(s, a, b);
    OwnedTogether(rows, names, n, a, b);
  }

  lemma OwnedTogether(rows: seq<Row>, names: seq<string>, n: nat, a: seq<Step>, b: seq<Step>)
    requires 1 <= n <= |rows| <= |names| && Owned(a, rows, names, n - 1)
    requires forall j | 0 <= j < |b| && b[j].Create? :: b[j].temp == TempOf(rows[n - 1], names[n - 1])
    ensures Owned(a + b, rows, names, n)
  {
    var c := a + b;
    forall i | 0 <= i < |c| && c[i].Create?
      ensures exists k :: 0 <= k < n && c[i].temp == TempOf(rows[k], names[k])
    {
      if i < |a| {
        var k :| 0 <= k < n - 1 && a[i].temp == TempOf(rows[k], names[k]);
      } else {
        assert c[i] == b[i - |a|];
      }
    }
  }

  lemma ProperTogether(s: Store, a: seq<Step>, b: seq<Step>)
    requires Proper(s, a) && (forall i | 0 <= i < |b| :: ProperStep(b[i]))
    requires forall i | 0 <= i < |b| && b[i].Create? :: i == |b| - 3 && b[i].temp !in s
    requires forall i, j | 0 <= i < |a| && 0 <= j < |b| && a[i].Create? && b[j].Create? :: a[i].temp != b[j].temp
    ensures Proper(s, a + b)
  {
    var c := a + b;
    forall i | 0 <= i < |c| ensures ProperStep(c[i]) && (c[i].Create? ==> c[i].temp !in s) {
      if i < |a| { assert c[i] == a[i]; } else { assert c[i] == b[i - |a|]; }
    }
    forall i, j | 0 <= i < j < |c| && c[i].Create? && c[j].Create? ensures c[i].temp != c[j].temp {
      if j < |a| {
        assert a[i].temp != a[j].temp;
      } else if i < |a| {
        assert a[i].temp != b[j - |a|].temp;
      }
    }
  }

  lemma {:induction false} AlternatesTogether(a: seq<Step>, b: seq<Step>, open: Option<Path>)
    requires Alternates(a, open) && Alternates(b, Left(a, open))
    ensures Alternates(a + b, open) && Left(a + b, open) == Left(b, Left(a, open))
    decreases |a|
  {
    if a == [] {
      assert a + b == b;
    } else {
      assert (a + b)[0] == a[0] && (a + b)[1..] == a[1..] + b;
      AlternatesTogether(a[1..], b, OpenAfter(open, a[0]));
    }
  }

  lemma {:induction false} AlternatesPrefix(steps: seq<Step>, open: Option<Path>, m: nat)
    requires Alternates(steps, open) && m <= |steps|
    ensures Alternates(steps[..m], open)
    decreases m
  {
    if m > 0 {
      assert steps[..m][0] == steps[0] && steps[..m][1..] == steps[1..][..m - 1];
      AlternatesPrefix(steps[1..], OpenAfter(open, steps[0]), m - 1);
    }
  }

  lemma {:induction false} ShownAlternates(steps: seq<Step>, open: Option<Path>)
    requires forall i | 0 <= i < |steps| :: steps[i].Visible?
    ensures Alternates(steps, open) && Left(steps, open) == open
  {
    if steps != [] { ShownAlternates(steps[1..], open); }
  }

  lemma RowAlternates(row: Row, content: Bytes, name: string)
    ensures Alternates(RowSteps(row, content, name), None) && Left(RowSteps(row, content, name), None) == None
  {
    var t, op := TempOf(row, name), Link(row.path, row.digest, content);
    ShownAlternates(Shown(Parents(row)), None);
    LastAlternates(t, content, op);
    AlternatesTogether(Shown(Parents(row)), LastSteps(t, content, op), None);
  }

  lemma LastAlternates(t: Path, content: Bytes, op: Op)
    ensures Alternates(LastSteps(t, content, op), None) && Left(LastSteps(t, content, op), None) == None
  {
    LastTails(t, content, op);
    var open: Option<Path> := Some(t);
    RemoveAlternates(t, open);
    assert Alternates([Visible(op), Remove(t)], open) && Left([Visible(op), Remove(t)], open) == None;
  }

  lemma RemoveAlternates(t: Path, open: Option<Path>)
    requires open == Some(t)
    ensures Alternates([Remove(t)], open) && Left([Remove(t)], open) == None
  {
    var rest := [Remove(t)][1..];
    assert rest == [];
    assert Left(rest, None) == None;
  }

  lemma LastTails(t: Path, content: Bytes, op: Op)
    ensures LastSteps(t, content, op)[1..] == [Visible(op), Remove(t)]
    ensures [Visible(op), Remove(t)][1..] == [Remove(t)] && [Remove(t)][1..] == []
  {
  }

  lemma {:induction false} StepsAlternate(rows: seq<Row>, contents: seq<Bytes>, names: seq<string>, n: nat)
    requires |contents| == |rows| && |names| >= |rows| && n <= |rows|
    ensures Alternates(AllSteps(rows, contents, names, n), None)
    ensures Left(AllSteps(rows, contents, names, n), None) == None
  {
    if n > 0 {
      StepsAlternate(rows, contents, names, n - 1);
      RowAlternates(rows[n - 1], contents[n - 1], names[n - 1]);
      AlternatesTogether(AllSteps(rows, contents, names, n - 1), RowSteps(rows[n - 1], contents[n - 1], names[n - 1]),
                         None);
    }
  }

  lemma {:induction false} VisibleTogether(a: seq<Step>, b: seq<Step>)
    ensures VisibleOps(a + b) == VisibleOps(a) + VisibleOps(b)
  {
    if a == [] {
      assert a + b == b;
    } else {
      assert (a + b)[0] == a[0] && (a + b)[1..] == a[1..] + b;
      VisibleTogether(a[1..], b);
    }
  }

  lemma {:induction false} VisibleShown(ops: seq<Op>)
    ensures VisibleOps(Shown(ops)) == ops
  {
    if ops != [] {
      assert Shown(ops)[1..] == Shown(ops[1..]);
      VisibleShown(ops[1..]);
    }
  }

  lemma RowVisible(row: Row, content: Bytes, name: string)
    ensures VisibleOps(RowSteps(row, content, name)) == RowOps(row, content)
  {
    var t, op := TempOf(row, name), Link(row.path, row.digest, content);
    VisibleShown(Parents(row));
    VisibleTogether(Shown(Parents(row)), LastSteps(t, content, op));
    LastTails(t, content, op);
    var rest := [Visible(op), Remove(t)];
    assert VisibleOps(rest[1..]) == [];
    assert VisibleOps(rest) == [op] + VisibleOps(rest[1..]) == [op];
  }

  lemma {:induction false} StepsVisible(rows: seq<Row>, contents: seq<Bytes>, names: seq<string>, n: nat)
    requires |contents| == |rows| && |names| >= |rows| && n <= |rows|
    ensures VisibleOps(AllSteps(rows, contents, names, n)) == AllOps(rows, contents, n)
  {
    if n > 0 {
      StepsVisible(rows, contents, names, n - 1);
      RowVisible(rows[n - 1], contents[n - 1], names[n - 1]);
      VisibleOneMore(rows, contents, names, n, AllSteps(rows, contents, names, n - 1), AllOps(rows, contents, n - 1));
    }
  }

  lemma VisibleOneMore(rows: seq<Row>, contents: seq<Bytes>, names: seq<string>, n: nat, a: seq<Step>, x: seq<Op>)
    requires |contents| == |rows| && |names| >= |rows| && 1 <= n <= |rows|
    requires a == AllSteps(rows, contents, names, n - 1) && x == AllOps(rows, contents, n - 1) && VisibleOps(a) == x
    requires VisibleOps(RowSteps(rows[n - 1], contents[n - 1], names[n - 1])) == RowOps(rows[n - 1], contents[n - 1])
    ensures VisibleOps(AllSteps(rows, contents, names, n)) == AllOps(rows, contents, n)
  {
    var b := RowSteps(rows[n - 1], contents[n - 1], names[n - 1]);
    OneRowMore(rows, contents, names, n, a, b);
    VisibleTogether(a, b);
  }

  lemma OneRowMore(rows: seq<Row>, contents: seq<Bytes>, names: seq<string>, n: nat, a: seq<Step>, b: seq<Step>)
    requires |contents| == |rows| && |names| >= |rows| && 1 <= n <= |rows|
    requires a == AllSteps(rows, contents, names, n - 1) && b == RowSteps(rows[n - 1], contents[n - 1], names[n - 1])
    ensures AllSteps(rows, contents, names, n) == a + b
  {
  }

  // ---- Verification -------------------------------------------------------------------------

  /** The incoming files: None where opening one raises, or it is no regular file. */
  type Incoming = map<Path, Bytes>

  predicate Verifies(hash: Bytes -> Digest, incoming: Incoming, row: Row) {
    row.path in incoming && |incoming[row.path]| <= SIZE_LIMIT && hash(incoming[row.path]) == row.digest
  }

  function ContentAt(incoming: Incoming, p: Path): Bytes {
    if p in incoming then incoming[p] else []
  }

  function Contents(incoming: Incoming, rows: seq<Row>): (c: seq<Bytes>)
    ensures |c| == |rows| && forall i | 0 <= i < |rows| :: c[i] == ContentAt(incoming, rows[i].path)
  {
    seq(|rows|, i requires 0 <= i < |rows| => ContentAt(incoming, rows[i].path))
  }

  /** What a promotion comes to, its hidden files named by `names`. */
  ghost function Promoted(hash: Bytes -> Digest, s: Store, rows: seq<Row>, incoming: Incoming, names: seq<string>)
    : Outcome
    requires |names| >= |rows|
  {
    if forall i | 0 <= i < |rows| :: Verifies(hash, incoming, rows[i]) then
      Whole(hash, s, AllSteps(rows, Contents(incoming, rows), names, |rows|), None)
    else Outcome(s, false)
  }

  class Promoter {
    var approved: Store

    constructor (s: Store)
      ensures approved == s
    {
      approved := s;
    }

    /** Phase one: nothing is made visible. */
    method Stage(hash: Bytes -> Digest, rows: seq<Row>, incoming: Incoming) returns (staged: Option<seq<Bytes>>)
      ensures staged.Some? <==> forall i | 0 <= i < |rows| :: Verifies(hash, incoming, rows[i])
      ensures staged.Some? ==> staged.value == Contents(incoming, rows)
    {
      var held: seq<Bytes> := [];
      for i := 0 to |rows|
        invariant |held| == i
        invariant forall j | 0 <= j < i :: Verifies(hash, incoming, rows[j]) && held[j] == incoming[rows[j].path]
      {
        if rows[i].path !in incoming { return None; }
        var content := incoming[rows[i].path];
        if |content| > SIZE_LIMIT { return None; }
        if hash(content) != rows[i].digest { return None; }
        held := held + [content];
      }
      staged := Some(held);
    }

    method Apply(hash: Bytes -> Digest, op: Op) returns (ok: bool)
      modifies this
      ensures ok == Do(hash, old(approved), op).Some?
      ensures approved == if ok then Do(hash, old(approved), op).value else old(approved)
    {
      match op
      case Make(p) =>
        if p !in approved { approved := approved[p := Directory]; }
        ok := approved[p] == Directory;
      case Link(p, digest, content) =>
        if p !in approved {
          approved := approved[p := File(content)];
          ok := true;
        } else {
          ok := approved[p].File? && hash(approved[p].content) == digest;
        }
    }

    /** The directories above one row's path. */
    method MakeAll(hash: Bytes -> Digest, row: Row) returns (ok: bool)
      modifies this
      ensures Outcome(approved, ok) == Whole(hash, old(approved), Shown(Parents(row)), None)
    {
      var parents := if row.path == [] then 0 else |row.path| - 1;
      ghost var steps: seq<Step> := [];
      for n := 0 to parents
        invariant steps == Shown(MakeParents(row.path, n))
        invariant Whole(hash, old(approved), steps, None) == Outcome(approved, true)
      {
        ghost var step := Visible(Make(row.path[..n + 1]));
        ok := Apply(hash, Make(row.path[..n + 1]));
        ShownAlternates(steps, None);
        WholeJoins(hash, old(approved), steps, [step], None);
        assert [step][1..] == [];
        assert steps + [step] == Shown(MakeParents(row.path, n + 1));
        steps := steps + [step];
        if !ok {
          StopsThere(hash, old(approved), row, n + 1);
          return;
        }
      }
      ok := true;
    }

    /** One row: its directories, its hidden file, the link, and in any case the end
        of the hidden file. */
    method PublishRow(hash: Bytes -> Digest, row: Row, content: Bytes, name: string) returns (ok: bool)
      modifies this
      ensures Outcome(approved, ok) == Whole(hash, old(approved), RowSteps(row, content, name), None)
    {
      var temp, op := TempOf(row, name), Link(row.path, row.digest, content);
      ShownAlternates(Shown(Parents(row)), None);
      WholeJoins(hash, approved, Shown(Parents(row)), LastSteps(temp, content, op), None);
      ok := MakeAll(hash, row);
      if !ok { return; }
      LastOutcome(hash, approved, temp, content, op);
      if temp in approved {
        approved := approved - {temp};
        return false;
      }
      approved := approved[temp := File(content)];
      ok := Apply(hash, op);
      approved := approved - {temp};
    }

    /** Phase two. */
    method PublishAll(hash: Bytes -> Digest, rows: seq<Row>, contents: seq<Bytes>, names: seq<string>)
      returns (ok: bool)
      requires |contents| == |rows| && |names| >= |rows|
      modifies this
      ensures Outcome(approved, ok) == Whole(hash, old(approved), AllSteps(rows, contents, names, |rows|), None)
    {
      for i := 0 to |rows|
        invariant Whole(hash, old(approved), AllSteps(rows, contents, names, i), None) == Outcome(approved, true)
      {
        ok := PublishRow(hash, rows[i], contents[i], names[i]);
        StepsAlternate(rows, contents, names, i);
        WholeJoins(hash, old(approved), AllSteps(rows, contents, names, i), RowSteps(rows[i], contents[i], names[i]),
                   None);
        if !ok {
          RestIsNotRun(hash, old(approved), rows, contents, names, i + 1, |rows|);
          return;
        }
      }
      ok := true;
    }

    /** Both phases. An artifact that is there is never changed, unless every row
        verifies nothing is published at all, and no hidden file of this promotion
        stays. */
    method Promote(hash: Bytes -> Digest, lines: seq<Line>, incoming: Incoming, names: seq<string>)
      returns (r: Result<nat, PromoteError>, ghost rows: seq<Row>)
      requires |names| >= |lines|
      modifies this
      ensures Rows(lines).None? || Rows(lines).value == [] || !Unique(Rows(lines).value) ==>
        r == Failure(InvalidApproval) && approved == old(approved)
      ensures Rows(lines).Some? && Rows(lines).value != [] && Unique(Rows(lines).value) ==>
        && rows == Rows(lines).value && |rows| <= |names|
        && Outcome(approved, r.Success?) == Promoted(hash, old(approved), rows, incoming, names)
        && (r.Success? ==> r.value == |rows|)
        && (r == Failure(NotVerified) <==> exists i | 0 <= i < |rows| ::
              rows[i].path !in incoming || |incoming[rows[i].path]| > 268435456
              || hash(incoming[rows[i].path]) != rows[i].digest)
        && (Plain(rows) && NewNames(old(approved), rows, names) ==>
              Kept(Seen(old(approved)), Seen(approved)) && Temps(approved) == Temps(old(approved)))
    {
      rows := [];
      var parsed := Rows(lines);
      RowsAreFew(lines);
      if parsed.None? || parsed.value == [] { return Failure(InvalidApproval), rows; }
      var listed := parsed.value;
      UniqueByCount(listed);
      if |Paths(listed)| != |listed| { return Failure(InvalidApproval), rows; }
      rows := listed;
      var staged := Stage(hash, listed, incoming);
      if staged.None? { return Failure(NotVerified), rows; }
      if Plain(listed) && NewNames(approved, listed, names) { PromotionKeeps(hash, approved, listed, incoming, names); }
      var ok := PublishAll(hash, listed, staged.value, names);
      r := if ok then Success(|listed|) else Failure(CannotPublish);
    }
  }

  lemma {:induction false} RowsAreFew(lines: seq<Line>)
    ensures Rows(lines).Some? ==> |Rows(lines).value| <= |lines|
  {
    if lines != [] { RowsAreFew(lines[..|lines| - 1]); }
  }

  lemma {:induction false} ParentsExtend(hash: Bytes -> Digest, s: Store, path: Path, n: nat, m: nat)
    requires n <= m <= |path| && !Whole(hash, s, Shown(MakeParents(path, n)), None).ok
    ensures Whole(hash, s, Shown(MakeParents(path, m)), None) == Whole(hash, s, Shown(MakeParents(path, n)), None)
    decreases m
  {
    if n < m {
      ParentsExtend(hash, s, path, n, m - 1);
      var step := Visible(Make(path[..m]));
      assert Shown(MakeParents(path, m)) == Shown(MakeParents(path, m - 1)) + [step];
      WholeJoins(hash, s, Shown(MakeParents(path, m - 1)), [step], None);
    }
  }

  lemma StopsThere(hash: Bytes -> Digest, s: Store, row: Row, n: nat)
    requires row.path != [] && n <= |row.path| - 1 && !Whole(hash, s, Shown(MakeParents(row.path, n)), None).ok
    ensures Whole(hash, s, Shown(Parents(row)), None) == Whole(hash, s, Shown(MakeParents(row.path, n)), None)
  {
    ParentsExtend(hash, s, row.path, n, |row.path| - 1);
  }

  lemma {:induction false} RestIsNotRun(hash: Bytes -> Digest, s: Store, rows: seq<Row>, contents: seq<Bytes>,
                                       names: seq<string>, i: nat, n: nat)
    requires i <= n <= |rows| && |contents| == |rows| && |names| >= |rows|
    requires !Whole(hash, s, AllSteps(rows, contents, names, i), None).ok
    ensures Whole(hash, s, AllSteps(rows, contents, names, n), None)
      == Whole(hash, s, AllSteps(rows, contents, names, i), None)
    decreases n
  {
    if i < n {
      RestIsNotRun(hash, s, rows, contents, names, i, n - 1);
      OneRowLess(hash, s, rows, contents, names, n, AllSteps(rows, contents, names, n - 1));
    }
  }

  lemma OneRowLess(hash: Bytes -> Digest, s: Store, rows: seq<Row>, contents: seq<Bytes>, names: seq<string>, n: nat,
                   a: seq<Step>)
    requires |contents| == |rows| && |names| >= |rows| && 1 <= n <= |rows|
    requires a == AllSteps(rows, contents, names, n - 1) && !Whole(hash, s, a, None).ok
    ensures Whole(hash, s, AllSteps(rows, contents, names, n), None) == Whole(hash, s, a, None)
  {
    var b := RowSteps(rows[n - 1], contents[n - 1], names[n - 1]);
    OneRowMore(rows, contents, names, n, a, b);
    WholeJoins(hash, s, a, b, None);
  }

  lemma {:induction false} ParentsAreFaithful(hash: Bytes -> Digest, path: Path, n: nat)
    requires n <= |path|
    ensures Faithful(hash, MakeParents(path, n))
    ensures forall i | 0 <= i < |MakeParents(path, n)| :: MakeParents(path, n)[i].Make?
  {
    if n > 0 { ParentsAreFaithful(hash, path, n - 1); }
  }

  lemma {:induction false} OpsAreFaithful(hash: Bytes -> Digest, rows: seq<Row>, incoming: Incoming, n: nat)
    requires (forall i | 0 <= i < |rows| :: Verifies(hash, incoming, rows[i])) && n <= |rows|
    ensures Faithful(hash, AllOps(rows, Contents(incoming, rows), n))
  {
    if n > 0 {
      OpsAreFaithful(hash, rows, incoming, n - 1);
      if rows[n - 1].path != [] { ParentsAreFaithful(hash, rows[n - 1].path, |rows[n - 1].path| - 1); }
      assert Verifies(hash, incoming, rows[n - 1]);
    }
  }

  // ---- What a promotion promises ---------------------------------------------------------------

  /** What is seen after a promotion is what its visible operations leave, and its
      hidden files are gone. */
  lemma PromotionIsVisible(hash: Bytes -> Digest, s: Store, rows: seq<Row>, contents: seq<Bytes>, names: seq<string>)
    requires |contents| == |rows| && |names| >= |rows| && Plain(rows) && NewNames(s, rows, names)
    ensures var w := Whole(hash, s, AllSteps(rows, contents, names, |rows|), None);
      Outcome(Seen(w.store), w.ok) == Run(hash, Seen(s), AllOps(rows, contents, |rows|)) && Temps(w.store) == Temps(s)
  {
    var steps := AllSteps(rows, contents, names, |rows|);
    StepsAreProper(s, rows, contents, names, |rows|);
    StepsAlternate(rows, contents, names, |rows|);
    StepsVisible(rows, contents, names, |rows|);
    HiddenFilesAside(hash, s, steps, None);
    OneHiddenFile(hash, s, steps, None);
  }

  lemma PromotionKeeps(hash: Bytes -> Digest, s: Store, rows: seq<Row>, incoming: Incoming, names: seq<string>)
    requires |names| >= |rows| && Plain(rows) && NewNames(s, rows, names)
    requires forall i | 0 <= i < |rows| :: Verifies(hash, incoming, rows[i])
    ensures var w := Promoted(hash, s, rows, incoming, names);
      Kept(Seen(s), Seen(w.store)) && Temps(w.store) == Temps(s)
  {
    var contents := Contents(incoming, rows);
    PromotionIsVisible(hash, s, rows, contents, names);
    OpsAreFaithful(hash, rows, incoming, |rows|);
    RunKeeps(hash, Seen(s), AllOps(rows, contents, |rows|));
  }

  lemma InEither(op: Op, a: seq<Op>, b: seq<Op>)
    requires op in a || op in b
    ensures op in a + b
  {
  }

  lemma {:induction false} LinkIsAmongOps(rows: seq<Row>, contents: seq<Bytes>, n: nat, i: nat)
    requires i < n <= |rows| && |contents| == |rows|
    ensures Link(rows[i].path, rows[i].digest, contents[i]) in AllOps(rows, contents, n)
  {
    var first, last := AllOps(rows, contents, n - 1), RowOps(rows[n - 1], contents[n - 1]);
    if i < n - 1 {
      LinkIsAmongOps(rows, contents, n - 1, i);
      InEither(Link(rows[i].path, rows[i].digest, contents[i]), first, last);
    } else {
      assert last[|last| - 1] == Link(rows[i].path, rows[i].digest, contents[i]);
      InEither(last[|last| - 1], first, last);
    }
  }

  /** After a successful promotion every approved path holds a file of its digest. */
  lemma PromotedIsApproved(hash: Bytes -> Digest, s: Store, rows: seq<Row>, incoming: Incoming, names: seq<string>,
                           i: nat)
    requires |names| >= |rows| && Plain(rows) && NewNames(s, rows, names)
    requires Promoted(hash, s, rows, incoming, names).ok && i < |rows|
    requires forall j | 0 <= j < |rows| :: Verifies(hash, incoming, rows[j])
    ensures var n := Promoted(hash, s, rows, incoming, names).store;
      rows[i].path in n && n[rows[i].path].File? && hash(n[rows[i].path].content) == rows[i].digest
  {
    var contents := Contents(incoming, rows);
    var ops := AllOps(rows, contents, |rows|);
    PromotionIsVisible(hash, s, rows, contents, names);
    OpsAreFaithful(hash, rows, incoming, |rows|);
    RunKeeps(hash, Seen(s), ops);
    LinkIsAmongOps(rows, contents, |rows|, i);
    var k :| 0 <= k < |ops| && ops[k] == Link(rows[i].path, rows[i].digest, contents[i]);
    assert IsDone(hash, Run(hash, Seen(s), ops).store, ops[k]);
  }

  lemma PrefixIsProper(s: Store, steps: seq<Step>, m: nat)
    requires Proper(s, steps) && m <= |steps|
    ensures Proper(s, steps[..m])
  {
  }

  lemma {:induction false} VisiblePrefix(steps: seq<Step>, m: nat) returns (k: nat)
    requires m <= |steps|
    ensures k <= |VisibleOps(steps)| && VisibleOps(steps[..m]) == VisibleOps(steps)[..k]
  {
    var first, more := steps[..m], steps[m..];
    assert steps == first + more;
    VisibleTogether(first, more);
    k := |VisibleOps(first)|;
  }

  /** What a killed promotion leaves: the visible operations of some prefix, and at
      most one hidden file. */
  lemma KilledSomewhere(hash: Bytes -> Digest, s: Store, rows: seq<Row>, contents: seq<Bytes>, names: seq<string>,
                        m: nat, killed: Store) returns (k: nat)
    requires |contents| == |rows| && |names| >= |rows| && Plain(rows) && NewNames(s, rows, names)
    requires m <= |AllSteps(rows, contents, names, |rows|)|
    requires killed == Whole(hash, s, AllSteps(rows, contents, names, |rows|)[..m], None).store
    ensures k <= |AllOps(rows, contents, |rows|)|
    ensures Seen(killed) == Run(hash, Seen(s), AllOps(rows, contents, |rows|)[..k]).store
    ensures Temps(s) <= Temps(killed) && |Temps(killed) - Temps(s)| <= 1
  {
    var steps := AllSteps(rows, contents, names, |rows|);
    StepsAreProper(s, rows, contents, names, |rows|);
    StepsAlternate(rows, contents, names, |rows|);
    StepsVisible(rows, contents, names, |rows|);
    k := KilledAt(hash, s, steps, m, killed);
  }

  lemma KilledAt(hash: Bytes -> Digest, s: Store, steps: seq<Step>, m: nat, killed: Store) returns (k: nat)
    requires Proper(s, steps) && Alternates(steps, None) && m <= |steps|
    requires killed == Whole(hash, s, steps[..m], None).store
    ensures k <= |VisibleOps(steps)| && Seen(killed) == Run(hash, Seen(s), VisibleOps(steps)[..k]).store
    ensures Temps(s) <= Temps(killed) && |Temps(killed) - Temps(s)| <= 1
  {
    PrefixIsProper(s, steps, m);
    AlternatesPrefix(steps, None, m);
    k := VisiblePrefix(steps, m);
    HiddenFilesAside(hash, s, steps[..m], None);
    OneHiddenFile(hash, s, steps[..m], None);
    AtMostOne(Temps(s), Temps(killed), Left(steps[..m], None));
  }

  /** A promotion killed after any number of its steps, the creation and removal of
      its hidden files included, leaves at most one hidden file; run again, it shows
      the same store and gives the same verdict as one that was not killed, and
      that file is all that stays besides. */
  lemma InterruptedThenRerun(hash: Bytes -> Digest, s: Store, rows: seq<Row>, incoming: Incoming, names: seq<string>,
                             again: seq<string>, m: nat, killed: Store)
    requires |names| >= |rows| && |again| >= |rows| && Plain(rows)
    requires forall j | 0 <= j < |rows| :: Verifies(hash, incoming, rows[j])
    requires m <= |AllSteps(rows, Contents(incoming, rows), names, |rows|)|
    requires killed == Whole(hash, s, AllSteps(rows, Contents(incoming, rows), names, |rows|)[..m], None).store
    requires NewNames(s, rows, names) && NewNames(killed, rows, again)
    ensures var once, twice := Promoted(hash, s, rows, incoming, names), Promoted(hash, killed, rows, incoming, again);
      && twice.ok == once.ok && Seen(twice.store) == Seen(once.store)
      && Temps(once.store) == Temps(s)
      && Temps(s) <= Temps(killed) == Temps(twice.store) && |Temps(killed) - Temps(s)| <= 1
  {
    var contents := Contents(incoming, rows);
    var k := KilledSomewhere(hash, s, rows, contents, names, m, killed);
    OpsAreFaithful(hash, rows, incoming, |rows|);
    RerunIsTheSame(hash, Seen(s), AllOps(rows, contents, |rows|), k);
    PromotionIsVisible(hash, s, rows, contents, names);
    PromotionIsVisible(hash, killed, rows, contents, again);
  }

  lemma AtMostOne(before: set<Path>, after: set<Path>, left: Option<Path>)
    requires after == before || after == before + SetOf(left)
    ensures before <= after && |after - before| <= 1
  {
    assert after - before <= SetOf(left);
    if left.Some? && after - before != {} { assert after - before == {left.value}; }
  }
}
