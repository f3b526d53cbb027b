/** Installing the client launch layer into one user's profile, and rolling it
    back, as the file changes they make one after the other. */
module ClientInstall {
  import opened Outcomes

  type Bytes = string
  type Files = map<string, Bytes>

  datatype Pointer = Absent | ToRelease(path: string) | Elsewhere

  /** The completed transaction. Hashes are collision-free and stand for the bytes. */
  datatype Record = Record(release: string, before: Bytes, after: Bytes, mode: nat, previous: Option<string>)

  /** One recovery folder: the saved profile and, at the very end, the record. */
  datatype Recovery = Recovery(before: Option<Bytes>, completed: Option<Record>)

  datatype Disk = Disk(profile: Bytes, mode: nat, pointer: Pointer, releases: map<string, Files>,
                       recoveries: map<string, Recovery>)

  datatype Request = Request(
    releasePath: string, files: Files, block: Bytes,
    expected: Bytes,               // the profile seen at preflight
    sound: bool,                   // release name, home, members and system files as qualified
    marker: Bytes)                 // the words that mark a managed block

  /** What happens meanwhile. The user appends to the profile before the last
      comparison, between it and the append, and between that and the readback; the
      system may write only the first bytes of the block. */
  datatype User = User(early: Bytes, middle: Bytes, late: Bytes, short: Option<nat>)

  datatype InstallError = Refused | ProfileEdited | ShortWrite | Interrupted

  predicate Contains(s: Bytes, part: Bytes) {
    part <= s || (s != "" && Contains(s[1..], part))
  }

  lemma {:induction false} ContainsIn(a: Bytes, part: Bytes, b: Bytes)
    ensures Contains(a + part + b, part)
  {
    if a == "" {
      assert a + part + b == part + b;
    } else {
      assert (a + part + b)[1..] == a[1..] + part + b;
      ContainsIn(a[1..], part, b);
    }
  }

  lemma {:induction false} ContainsMore(s: Bytes, part: Bytes, more: Bytes)
    requires Contains(s, part)
    ensures Contains(s + more, part)
  {
    if part <= s {
      assert part <= s + more;
    } else {
      assert (s + more)[1..] == s[1..] + more;
      ContainsMore(s[1..], part, more);
    }
  }

  function Target(p: Pointer): Option<string> {
    if p.ToRelease? then Some(p.path) else None
  }

  // ---- Install -------------------------------------------------------------------------

  /** The checks before the first change. `owned` tells that the profile defines a
      launcher of the user's own. */
  predicate MayInstall(d: Disk, q: Request, owned: Bytes -> bool) {
    && q.sound && d.profile == q.expected && !owned(d.profile)
    && (Contains(d.profile, q.marker) ==> Contains(d.profile, q.block))
    && !d.pointer.Elsewhere?
    && (q.releasePath in d.releases ==> Holds(d.releases[q.releasePath], q.files))
  }

  /** Every file of the bundle is there, byte for byte; there may be more. */
  predicate Holds(release: Files, files: Files) {
    forall name | name in files :: name in release && release[name] == files[name]
  }

  /** A release that is there stays as it is. */
  function WithRelease(releases: map<string, Files>, q: Request): map<string, Files> {
    if q.releasePath in releases then releases else releases[q.releasePath := q.files]
  }

  /** The profile after the append and the user's own additions around it. */
  function Appended(before: Bytes, q: Request, u: User): Bytes {
    before + u.middle + (if Contains(before, q.block) then "" else q.block) + u.late
  }

  /** The disk after the first `n` changes of an accepted install: the release, the
      saved profile, the append, the pointer, the record. */
  function After(d: Disk, q: Request, u: User, folder: string, n: nat): Disk {
    var d1 := if n >= 1 then d.(releases := WithRelease(d.releases, q)) else d;
    var d2 := if n >= 2 then d1.(recoveries := d1.recoveries[folder := Recovery(Some(d.profile), None)]) else d1;
    var d3 := if n >= 3 then d2.(profile := Appended(d.profile, q, u)) else d2;
    var d4 := if n >= 4 then d3.(pointer := ToRelease(q.releasePath)) else d3;
    if n >= 5 then
      d4.(recoveries := d4.recoveries[folder := Recovery(Some(d.profile), Some(RecordOf(d, q, u)))])
    else d4
  }

  predicate WritesShort(before: Bytes, q: Request, u: User) {
    !Contains(before, q.block) && u.short.Some? && u.short.value < |q.block|
  }

  /** What a short write of the block leaves. */
  function ShortAppended(before: Bytes, q: Request, u: User): Bytes
    requires WritesShort(before, q, u)
  {
    before + u.middle + q.block[..u.short.value]
  }

  function Least(a: nat, b: nat): nat { if a < b then a else b }

  function RecordOf(d: Disk, q: Request, u: User): Record {
    Record(q.releasePath, d.profile, Appended(d.profile, q, u), d.mode, Target(d.pointer))
  }

  class ClientLayer {
    var profile: Bytes
    var mode: nat
    var pointer: Pointer
    var releases: map<string, Files>
    var recoveries: map<string, Recovery>

    ghost function View(): Disk
      reads this
    {
      Disk(profile, mode, pointer, releases, recoveries)
    }

    constructor (d: Disk)
      ensures View() == d
    {
      profile, mode, pointer, releases, recoveries := d.profile, d.mode, d.pointer, d.releases, d.recoveries;
    }

    /** `stop` is the number of changes after which the system fails, if ever.
        What is on disk is always what exactly so many of the changes leave, in
        their order. */
    method Install(q: Request, u: User, folder: string, owned: Bytes -> bool, stop: nat)
      returns (r: Result<Record, InstallError>, ghost done: nat)
      requires folder !in recoveries
      modifies this
      ensures !MayInstall(old(View()), q, owned) ==> r == Failure(Refused) && View() == old(View())
      ensures MayInstall(old(View()), q, owned) && u.early != "" ==>
        && r.Failure? && done == Least(stop, 2)
        && View() == After(old(View()), q, u, folder, done).(profile := old(profile) + u.early)
      ensures MayInstall(old(View()), q, owned) && u.early == "" && WritesShort(old(profile), q, u) && stop >= 3 ==>
        && r == Failure(ShortWrite) && done == 2
        && View() == After(old(View()), q, u, folder, 2).(profile := ShortAppended(old(profile), q, u))
      ensures MayInstall(old(View()), q, owned) && u.early == "" && (WritesShort(old(profile), q, u) ==> stop < 3) ==>
        && done == Least(stop, 5) && View() == After(old(View()), q, u, folder, done)
        && (r.Success? <==> done == 5) && (r.Success? ==> r.value == RecordOf(old(View()), q, u))
    {
      done := 0;
      var before := profile;
      if !q.sound || before != q.expected { return Failure(Refused), 0; }
      if Contains(before, q.marker) && !Contains(before, q.block) { return Failure(Refused), 0; }
      if owned(before) { return Failure(Refused), 0; }
      if q.releasePath in releases && !Holds(releases[q.releasePath], q.files) { return Failure(Refused), 0; }
      if pointer.Elsewhere? { return Failure(Refused), 0; }
      var previous := Target(pointer);
      profile := profile + u.early;                    // the user, while the rest is prepared
      assert u.early == "" ==> profile == before;
      if stop == 0 { return Failure(Interrupted), 0; }
      if q.releasePath !in releases { releases := releases[q.releasePath := q.files]; }
      done := 1;
      if stop == 1 { return Failure(Interrupted), done; }
      recoveries := recoveries[folder := Recovery(Some(before), None)];
      done := 2;
      if profile != before {
        return Failure(ProfileEdited), done;
      }
      assert |profile| == |before| + |u.early|;
      if stop == 2 { return Failure(Interrupted), done; }
      var whole := AppendBlock(q, u);
      if !whole { return Failure(ShortWrite), done; }
      var after := profile;
      done := 3;
      if stop == 3 { return Failure(Interrupted), done; }
      pointer := ToRelease(q.releasePath);
      done := 4;
      if stop == 4 { return Failure(Interrupted), done; }
      var record := Record(q.releasePath, before, after, mode, previous);
      recoveries := recoveries[folder := Recovery(Some(before), Some(record))];
      done := 5;
      r := Success(record);
    }

    /** The append-only update and its readback, which always finds the old bytes
        first and the block after them, unless the write itself was short. */
    method AppendBlock(q: Request, u: User) returns (whole: bool)
      modifies this`profile
      ensures whole == !WritesShort(old(profile), q, u)
      ensures whole ==> profile == Appended(old(profile), q, u) && old(profile) <= profile && Contains(profile, q.block)
      ensures !whole ==> profile == ShortAppended(old(profile), q, u)
    {
      ghost var before := profile;
      var there := Contains(profile, q.block);
      profile := profile + u.middle;
      if !there {
        if u.short.Some? && u.short.value < |q.block| {
          profile := profile + q.block[..u.short.value];
          return false;
        }
        profile := profile + q.block;
      }
      profile := profile + u.late;
      ReadbackHolds(before, q, u);
      assert before + u.middle + "" == before + u.middle;
      whole := true;
    }

    /** The user appends `early` between the first comparison with the record and
        the last, and `race` between that and the replacement; `stop` as before. An
        early edit is kept and refused; the raced one is overwritten. */
    method Rollback(folder: string, early: Bytes, race: Bytes, stop: nat) returns (ok: bool, ghost done: nat)
      modifies this
      ensures !MayRollback(old(View()), folder) ==> !ok && View() == old(View())
      ensures MayRollback(old(View()), folder) && early != "" ==>
        !ok && View() == old(View()).(profile := old(profile) + early)
      ensures MayRollback(old(View()), folder) && early == "" ==>
        && done == Least(stop, 2) && View() == RolledBack(old(View()), folder, race, done)
        && (ok <==> done == 2)
    {
      done := 0;
      if folder !in recoveries || recoveries[folder].completed.None? || recoveries[folder].before.None? {
        return false, 0;
      }
      var record, saved := recoveries[folder].completed.value, recoveries[folder].before.value;
      var current := profile;
      if current != record.after || saved != record.before || pointer != ToRelease(record.release) { return false, 0; }
      profile := profile + early;                     // the user, while the restored file is prepared
      assert |profile| == |current| + |early|;
      if profile != current { return false, 0; }
      profile := profile + race;                      // the user, before the replacement
      if stop == 0 { return false, 0; }
      profile, mode := saved, record.mode;
      done := 1;
      if stop == 1 { return false, done; }
      pointer := if record.previous.Some? then ToRelease(record.previous.value) else Absent;
      done := 2;
      ok := true;
    }
  }

  /** The append is always read back as it should be. */
  lemma ReadbackHolds(before: Bytes, q: Request, u: User)
    ensures before <= Appended(before, q, u) && Contains(Appended(before, q, u), q.block)
  {
    if Contains(before, q.block) {
      ContainsMore(before, q.block, u.middle + u.late);
      assert Appended(before, q, u) == before + (u.middle + u.late);
    } else {
      ContainsIn(before + u.middle, q.block, u.late);
    }
  }

  // ---- Rollback ----------------------------------------------------------------------------

  predicate MayRollback(d: Disk, folder: string) {
    && folder in d.recoveries && d.recoveries[folder].completed.Some? && d.recoveries[folder].before.Some?
    && d.profile == d.recoveries[folder].completed.value.after
    && d.recoveries[folder].before.value == d.recoveries[folder].completed.value.before
    && d.pointer == ToRelease(d.recoveries[folder].completed.value.release)
  }

  /** The disk after the first `n` changes of an accepted rollback: the profile,
      the pointer. */
  function RolledBack(d: Disk, folder: string, race: Bytes, n: nat): Disk
    requires MayRollback(d, folder)
  {
    var record := d.recoveries[folder].completed.value;
    var d0 := d.(profile := d.profile + race);
    var d1 := if n >= 1 then d0.(profile := record.before, mode := record.mode) else d0;
    if n >= 2 then d1.(pointer := if record.previous.Some? then ToRelease(record.previous.value) else Absent) else d1
  }

  // ---- When each is refused --------------------------------------------------------------------

  ghost predicate Within(part: Bytes, s: Bytes) { exists a, b :: s == a + part + b }

  lemma {:induction false} ContainsExactlyWhen(s: Bytes, part: Bytes)
    ensures Contains(s, part) <==> Within(part, s)
    decreases |s|
  {
    if a, b :| s == a + part + b { ContainsIn(a, part, b); }
    if part <= s {
      assert s == "" + part + s[|part|..];
    } else if Contains(s, part) {
      ContainsExactlyWhen(s[1..], part);
      var a, b :| s[1..] == a + part + b;
      assert s == ([s[0]] + a) + part + b;
    }
  }

  /** An install is accepted exactly when the bundle is sound, the profile is the
      one seen at preflight, defines no launcher of the user's own and has no managed
      block but this one, the pointer is none or a link to a release, and a release
      of this name holds these files. */
  lemma InstallsExactlyWhen(d: Disk, q: Request, owned: Bytes -> bool)
    ensures MayInstall(d, q, owned) <==>
      && q.sound && d.profile == q.expected && !owned(q.expected)
      && (Within(q.block, d.profile) || !Within(q.marker, d.profile))
      && (d.pointer == Absent || d.pointer.ToRelease?)
      && forall name | q.releasePath in d.releases && name in q.files ::
           name in d.releases[q.releasePath] && d.releases[q.releasePath][name] == q.files[name]
  {
    ContainsExactlyWhen(d.profile, q.block);
    ContainsExactlyWhen(d.profile, q.marker);
  }

  /** What is on disk after a whole install. */
  lemma InstalledDisk(d: Disk, q: Request, u: User, folder: string)
    ensures var x, block := After(d, q, u, folder, 5), if Within(q.block, d.profile) then "" else q.block;
      && x.profile == d.profile + u.middle + block + u.late && x.mode == d.mode
      && x.pointer == ToRelease(q.releasePath)
      && q.releasePath in x.releases
      && (q.releasePath !in d.releases ==> x.releases[q.releasePath] == q.files)
      && (forall r | r in d.releases :: r in x.releases && x.releases[r] == d.releases[r])
      && folder in x.recoveries && x.recoveries[folder].before == Some(d.profile)
      && var previous := if d.pointer.ToRelease? then Some(d.pointer.path) else None;
        x.recoveries[folder].completed == Some(Record(q.releasePath, d.profile, x.profile, d.mode, previous))
  {
    ContainsExactlyWhen(d.profile, q.block);
  }

  /** A rollback of an install is accepted exactly when profile, saved copy and
      pointer are those the install left. */
  lemma RollsBackExactlyWhen(d: Disk, q: Request, u: User, folder: string, x: Disk)
    requires folder in x.recoveries && x.recoveries[folder].completed == Some(RecordOf(d, q, u))
    ensures MayRollback(x, folder) <==>
      && x.profile == After(d, q, u, folder, 5).profile
      && x.recoveries[folder].before == Some(d.profile)
      && x.pointer == ToRelease(q.releasePath)
  {
  }

  // ---- What the two promise together -----------------------------------------------------------

  /** However an install ends, the user's profile still begins with what it was, and
      the pointer moves only once the profile holds the block. */
  lemma InstallOnlyAppends(d: Disk, q: Request, u: User, folder: string, n: nat)
    ensures WritesShort(d.profile, q, u) ==> d.profile <= ShortAppended(d.profile, q, u)
    ensures var x := After(d, q, u, folder, n);
      && d.profile <= x.profile && x.mode == d.mode
      && (x.pointer != d.pointer ==> x.pointer == ToRelease(q.releasePath) && Contains(x.profile, q.block))
      && (x.profile != d.profile ==> folder in x.recoveries && x.recoveries[folder].before == Some(d.profile))
      && (x.recoveries != d.recoveries ==> q.releasePath in x.releases)
      && (folder !in d.recoveries && folder in x.recoveries && x.recoveries[folder].completed.Some? ==>
            x.pointer == ToRelease(q.releasePath))
      && forall f | f in d.recoveries && f != folder :: f in x.recoveries && x.recoveries[f] == d.recoveries[f]
  {
    ReadbackHolds(d.profile, q, u);
  }

  /** An install followed by its rollback restores profile, mode and pointer
      exactly, whatever the mode was made meanwhile; what the user appended during
      the install is then gone, unless it was nothing. */
  lemma RollbackUndoesInstall(d: Disk, q: Request, u: User, folder: string, mode: nat)
    requires !d.pointer.Elsewhere? && u.early == ""
    ensures var x := After(d, q, u, folder, 5).(mode := mode);
      && MayRollback(x, folder)
      && var y := RolledBack(x, folder, "", 2);
        && y.profile == d.profile && y.mode == d.mode && y.pointer == d.pointer && y.recoveries == x.recoveries
        && (x.profile == y.profile + (if Contains(d.profile, q.block) then "" else q.block) <==>
              u.middle == "" && u.late == "")
  {
    var block := if Contains(d.profile, q.block) then "" else q.block;
    assert |Appended(d.profile, q, u)| == |d.profile| + |u.middle| + |block| + |u.late|;
    if u.middle == "" && u.late == "" { assert Appended(d.profile, q, u) == d.profile + block; }
  }

  /** After any later append to the profile the rollback is refused: the profile is
      then longer than the record of the install says. */
  lemma LaterAppendIsRefused(d: Disk, q: Request, u: User, folder: string, more: Bytes)
    requires more != "" && u.early == ""
    ensures var x := After(d, q, u, folder, 5); !MayRollback(x.(profile := x.profile + more), folder)
  {
    var x := After(d, q, u, folder, 5);
    assert |x.profile + more| == |x.profile| + |more|;
  }

  /** What the user appends while an accepted rollback runs is on disk afterwards,
      behind the restored profile or behind the refused one, exactly when none of
      it fell between the last comparison and the replacement. */
  lemma EditsSurviveExactlyWhen(d: Disk, folder: string, early: Bytes, race: Bytes, result: Disk)
    requires MayRollback(d, folder)
    requires result == if early != "" then d.(profile := d.profile + early) else RolledBack(d, folder, race, 2)
    ensures var restored := d.recoveries[folder].completed.value.before;
      ((result.profile == d.profile + early && early != "") || result.profile == restored + race) <==>
        (early != "" || race == "")
  {
    var restored := d.recoveries[folder].completed.value.before;
    assert |restored + race| == |restored| + |race|;
  }

  /** A rollback cut off after its first change can be run again exactly when the
      install had left the profile as it was: otherwise the restored profile counts
      as drift, and the pointer stays. */
  lemma RerunAfterInterruption(d: Disk, folder: string, race: Bytes)
    requires MayRollback(d, folder)
    ensures var x, record := RolledBack(d, folder, race, 1), d.recoveries[folder].completed.value;
      && (MayRollback(x, folder) <==> record.before == record.after)
      && x.pointer == d.pointer
  {
  }

  /** Which is when the block was there already and the user added nothing. */
  lemma InstallLeftTheProfile(d: Disk, q: Request, u: User)
    requires q.block != ""
    ensures RecordOf(d, q, u).before == RecordOf(d, q, u).after <==>
            Contains(d.profile, q.block) && u.middle == "" && u.late == ""
  {
    var added := if Contains(d.profile, q.block) then "" else q.block;
    assert |Appended(d.profile, q, u)| == |d.profile| + |u.middle| + |added| + |u.late|;
  }

  // ---- A whole series ----------------------------------------------------------------------------

  datatype Step = Step(q: Request, u: User, folder: string)

  ghost predicate Series(disks: seq<Disk>, steps: seq<Step>) {
    && |disks| == |steps| + 1 && !disks[0].pointer.Elsewhere?
    && (forall i | 0 <= i < |steps| ::
          && steps[i].u.early == "" && steps[i].folder !in disks[i].recoveries
          && disks[i + 1] == After(disks[i], steps[i].q, steps[i].u, steps[i].folder, 5))
  }

  lemma {:induction false} RecordsStay(disks: seq<Disk>, steps: seq<Step>, i: nat, j: nat)
    requires Series(disks, steps) && i < j <= |steps|
    ensures steps[i].folder in disks[j].recoveries
    ensures disks[j].recoveries[steps[i].folder]
      == Recovery(Some(disks[i].profile), Some(RecordOf(disks[i], steps[i].q, steps[i].u)))
    decreases j
  {
    if i < j - 1 { RecordsStay(disks, steps, i, j - 1); }
  }

  lemma {:induction false} NeverElsewhere(disks: seq<Disk>, steps: seq<Step>, i: nat)
    requires Series(disks, steps) && i < |disks|
    ensures !disks[i].pointer.Elsewhere?
  {
    if i > 0 { NeverElsewhere(disks, steps, i - 1); }
  }

  /** The rollbacks of a series, last install first: what is left after undoing all
      but the first `n`. */
  ghost predicate Unwound(disks: seq<Disk>, x: Disk, n: nat)
    requires n < |disks|
  {
    && x.profile == disks[n].profile && x.mode == disks[n].mode && x.pointer == disks[n].pointer
    && x.recoveries == disks[|disks| - 1].recoveries
  }

  /** After any series of installs, rolling them back in reverse order is never
      refused and each time restores profile, mode and pointer exactly. */
  lemma ReverseRollbackRestores(disks: seq<Disk>, steps: seq<Step>, x: Disk, n: nat)
    requires Series(disks, steps) && n < |steps| && Unwound(disks, x, n + 1)
    ensures MayRollback(x, steps[n].folder) && Unwound(disks, RolledBack(x, steps[n].folder, "", 2), n)
  {
    RecordsStay(disks, steps, n, |steps|);
    NeverElsewhere(disks, steps, n);
  }

  predicate Undoes(x: Disk, folder: string, y: Disk) {
    MayRollback(x, folder) && y == RolledBack(x, folder, "", 2)
  }

  /** The rollbacks down to the state before the first install, as one chain. */
  lemma {:induction false} SeriesIsUndone(disks: seq<Disk>, steps: seq<Step>, n: nat) returns (chain: seq<Disk>)
    requires Series(disks, steps) && n <= |steps|
    ensures |chain| == n + 1 && chain[0] == disks[|steps|] && Unwound(disks, chain[n], |steps| - n)
    ensures forall k | 0 <= k < n :: Undoes(chain[k], steps[|steps| - 1 - k].folder, chain[k + 1])
  {
    if n == 0 {
      chain := [disks[|steps|]];
    } else {
      var before := SeriesIsUndone(disks, steps, n - 1);
      var x := before[n - 1];
      var k := |steps| - n;
      ReverseRollbackRestores(disks, steps, x, k);
      chain := before + [RolledBack(x, steps[k].folder, "", 2)];
    }
  }
}
