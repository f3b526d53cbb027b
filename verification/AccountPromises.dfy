/** Who gets an account, which slot it has and where its requests go, told from the
    account file and the pool file alone. */
module AccountPromises {
  import opened Outcomes
  import opened Basics
  import opened OrderedDict
  import opened CapacityPlanner
  import opened CapacityProtocol

  // ---- The pool file ----------------------------------------------------------------

  /** A new slot's name: sixteen lower-case hexadecimal digits between two fixed parts. */
  ghost predicate NewName(s: string) {
    exists hex: string :: |hex| == 16 && (forall i | 0 <= i < 16 :: hex[i] in "0123456789abcdef")
                          && s == "cap-" + hex + "-01"
  }

  /** The platform's own host, port and token file for one environment of a slot. */
  predicate OwnTarget(site: Site, s: string, env: string, t: Target) {
    && t.host == "dsh-u-" + site.identity(s) + "-" + env + "." + site.scope + ".svc.cluster.local"
    && t.port == 3081
    && t.tokenFile == "/runtime-tokens/capacity/" + site.identity(s) + "/" + env + "/token"
  }

  predicate OwnRoutes(site: Site, s: string, routes: Routes) {
    && "secure" in routes && "internet" in routes
    && (forall env | env in routes :: env == "secure" || env == "internet")
    && OwnTarget(site, s, "secure", routes["secure"]) && OwnTarget(site, s, "internet", routes["internet"])
  }

  /** At most 400 slots, the first pool unchanged, and every other slot the platform's
      own. */
  ghost predicate Trusted(site: Site, pool: map<string, Routes>) {
    && |pool| <= 400
    && (forall s | s in site.initial.at :: s in pool && pool[s] == site.initial.at[s])
    && forall s | s in pool && s !in site.initial.at :: NewName(s) && OwnRoutes(site, s, pool[s])
  }

  lemma HexMeans(c: char)
    ensures IsHex(c) <==> c in "0123456789abcdef"
  {
    var digits := "0123456789abcdef";
    if IsHex(c) {
      var i := if c <= '9' then c as int - 48 else c as int - 87;
      assert digits[i] == c;
    }
  }

  lemma NewNameMeans(s: string)
    ensures IsNewSlot(s) <==> NewName(s)
  {
    if IsNewSlot(s) {
      var hex := s[4..20];
      forall i | 0 <= i < 16 ensures hex[i] in "0123456789abcdef" { HexMeans(s[4 + i]); }
      assert s == s[..4] + hex + s[20..];
    }
    if hex: string :| |hex| == 16 && (forall i | 0 <= i < 16 :: hex[i] in "0123456789abcdef")
                      && s == "cap-" + hex + "-01" {
      NewNameParts(s, hex);
    }
  }

  lemma NewNameParts(s: string, hex: string)
    requires |hex| == 16 && (forall i | 0 <= i < 16 :: hex[i] in "0123456789abcdef") && s == "cap-" + hex + "-01"
    ensures IsNewSlot(s)
  {
    assert s[..4] == "cap-" && s[20..] == "-01";
    forall i | 4 <= i < 20 ensures IsHex(s[i]) {
      assert s[i] == hex[i - 4];
      HexMeans(s[i]);
    }
  }

  lemma OwnRoutesMean(site: Site, s: string, routes: Routes)
    ensures CanonicalRoutes(site, s, routes) <==> OwnRoutes(site, s, routes)
  {
    if OwnRoutes(site, s, routes) { assert routes.Keys == {"secure", "internet"}; }
  }

  /** The gateway takes a pool file exactly when it can be trusted. */
  lemma TrustedExactlyWhen(site: Site, pool: Dict<Routes>)
    ensures PoolAccepted(site, pool) <==> Trusted(site, pool.at)
  {
    forall s | s in pool.at && s !in site.initial.at
      ensures IsNewSlot(s) && CanonicalRoutes(site, s, pool.at[s]) <==> NewName(s) && OwnRoutes(site, s, pool.at[s])
    {
      NewNameMeans(s);
      OwnRoutesMean(site, s, pool.at[s]);
    }
  }

  // ---- Who gets a slot -----------------------------------------------------------------

  ghost predicate Held(users: map<string, User>, slot: string) { exists u :: u in users && users[u].slot == Some(slot) }

  /** The first slot of the pool that nobody holds. */
  ghost predicate FirstFree(pool: seq<string>, users: map<string, User>, slot: string) {
    exists i :: && 0 <= i < |pool| && pool[i] == slot && !Held(users, slot)
                && forall j | 0 <= j < i :: Held(users, pool[j])
  }

  lemma {:induction false} FreeSlotsMean(pool: seq<string>, users: map<string, User>)
    ensures var f := FreeSlots(pool, SlotsOf(users));
      && (f == [] <==> forall s | s in pool :: Held(users, s))
      && (f != [] ==> FirstFree(pool, users, f[0]))
  {
    if pool != [] {
      var rest := pool[1..];
      FreeSlotsMean(rest, users);
      assert pool[0] in SlotsOf(users) <==> Held(users, pool[0]);
      if pool[0] in SlotsOf(users) {
        var f := FreeSlots(rest, SlotsOf(users));
        if f != [] {
          var i :|
            0 <= i < |rest| && rest[i] == f[0] && !Held(users, f[0]) && forall j | 0 <= j < i :: Held(users, rest[j]);
          assert pool[i + 1] == f[0];
          forall j | 0 <= j < i + 1 ensures Held(users, pool[j]) { if j > 0 { assert pool[j] == rest[j - 1]; } }
        }
      } else {
        assert pool[0] in pool && !Held(users, pool[0]);
      }
    }
  }

  /** The operator provisioned both environments of this name. */
  predicate Direct(site: Site, name: string) {
    name in site.targets && "secure" in site.targets[name] && "internet" in site.targets[name]
  }

  /** The name is free to take. */
  predicate Available(site: Site, users: map<string, User>, name: string) {
    && name !in site.admins && name !in users
    && name != "__proto__" && name != "constructor" && name != "prototype"
  }

  /** The account may be made: admission is open, the name available, the password
      strong, and there is a place for it. */
  ghost predicate MayHave(site: Site, d: Disk, name: string, admitted: bool, strong: bool) {
    && admitted && Available(site, d.users.at, name) && strong
    && (Direct(site, name) || (Trusted(site, d.pool.at) && exists s :: s in d.pool.keys && !Held(d.users.at, s)))
  }

  /** The account it becomes: its own provisioned place, or the first free slot. */
  ghost predicate Becomes(site: Site, d: Disk, name: string, user: User, ldap: bool, subject: string) {
    && user.ldap == ldap && user.subject == subject && !user.disabled
    && if Direct(site, name) then user.slot.None?
       else user.slot.Some? && FirstFree(d.pool.keys, d.users.at, user.slot.value)
  }

  lemma NewAccountMeans(site: Site, d: Disk, name: string, admitted: bool, strong: bool)
    ensures var r := NewAccount(site, d, name, admitted, strong);
      && (r.Success? <==> MayHave(site, d, name, admitted, strong))
      && (r.Success? ==> Becomes(site, d, name, User(r.value, false, "", false), false, ""))
  {
    TrustedExactlyWhen(site, d.pool);
    FreeSlotsMean(d.pool.keys, d.users.at);
  }

  /** Why an account is refused: the first of these that applies. */
  lemma RefusedBecause(site: Site, d: Disk, name: string, admitted: bool, strong: bool)
    ensures var r := NewAccount(site, d, name, admitted, strong);
      && (r == Failure(Paused) <==> !admitted)
      && (r == Failure(Conflict) <==> admitted && !Available(site, d.users.at, name))
      && (r == Failure(Weak) <==> admitted && Available(site, d.users.at, name) && !strong)
      && (r == Failure(Unavailable) <==>
            && admitted && Available(site, d.users.at, name) && strong && !Direct(site, name)
            && !Trusted(site, d.pool.at))
  {
    TrustedExactlyWhen(site, d.pool);
  }

  // ---- The ways to an account -------------------------------------------------------------

  ghost predicate OneMore(d: Disk, n: Disk, name: string) {
    && n == d.(users := n.users) && n.users.keys == d.users.keys + [name]
    && name in n.users.at && n.users.at == d.users.at[name := n.users.at[name]]
  }

  /** Signing up makes an account exactly when it may, for a name that is not
      provisioned, and the file is kept. */
  lemma SignsUpExactlyWhen(site: Site, s: State, name: string, admitted: bool, strong: bool, kept: bool)
    requires Shaped(s.disk)
    ensures var n := Step(site, s, SignUp(name, admitted, strong, kept));
      if MayHave(site, s.disk, name, admitted, strong) && name !in site.targets && kept
      then && OneMore(s.disk, n.disk, name) && n.stage == s.stage
           && Becomes(site, s.disk, name, n.disk.users.at[name], false, "")
      else n == s
  {
    NewAccountMeans(site, s.disk, name, admitted, strong);
  }

  /** An administrator makes one exactly when it may, and the file is kept. */
  lemma AdminAddsExactlyWhen(site: Site, s: State, name: string, admitted: bool, strong: bool, kept: bool)
    requires Shaped(s.disk)
    ensures var n := Step(site, s, AdminAdds(name, admitted, strong, kept));
      if MayHave(site, s.disk, name, admitted, strong) && kept
      then && OneMore(s.disk, n.disk, name) && n.stage == s.stage
           && Becomes(site, s.disk, name, n.disk.users.at[name], false, "")
      else n == s
  {
    NewAccountMeans(site, s.disk, name, admitted, strong);
  }

  /** ASCII letters of both cases are one. */
  predicate SameFolded(u: string, name: string) {
    |u| == |name| && forall i | 0 <= i < |u| :: name[i] == if 'A' <= u[i] <= 'Z' then u[i] + 32 as char else u[i]
  }

  /** An account of this name in any letter case that is local, or of another spelling. */
  ghost predicate Clashes(users: map<string, User>, name: string) {
    exists u :: u in users && SameFolded(u, name) && (!users[u].ldap || u != name)
  }

  lemma ClashesMeans(site: Site, users: map<string, User>, name: string)
    ensures LdapConflict(site, users, name) <==> name in site.admins || Clashes(users, name)
  {
    forall u ensures Lower(u) == name <==> SameFolded(u, name) { FoldedMeans(u, name); }
    if Clashes(users, name) {
      var u :| u in users && SameFolded(u, name) && (!users[u].ldap || u != name);
      assert u in Matches(users, name);
    }
  }

  lemma FoldedMeans(u: string, name: string)
    ensures Lower(u) == name <==> SameFolded(u, name)
  {
    if SameFolded(u, name) { assert Lower(u) == name; }
  }

  /** A directory sign-in makes one exactly when creation is wanted and allowed, no
      account clashes with the name, and it may. */
  lemma DirectoryAddsExactlyWhen(site: Site, s: State, name: string, subject: string, create: bool, admitted: bool,
                                 kept: bool)
    requires Shaped(s.disk)
    ensures var n := Step(site, s, Directory(name, subject, create, admitted, kept));
      if create && !Clashes(s.disk.users.at, name) && MayHave(site, s.disk, name, admitted, true) && kept
      then && OneMore(s.disk, n.disk, name) && n.stage == s.stage
           && Becomes(site, s.disk, name, n.disk.users.at[name], true, subject)
      else n == s
  {
    NewAccountMeans(site, s.disk, name, admitted, true);
    ClashesMeans(site, s.disk.users.at, name);
  }

  /** Enabling or disabling changes that flag of that account and nothing else. */
  lemma OnlyTheFlagChanges(site: Site, s: State, name: string, disabled: bool)
    requires Shaped(s.disk)
    ensures var n := Step(site, s, AdminSets(name, disabled));
      if name in s.disk.users.at
      then && n == s.(disk := s.disk.(users := n.disk.users)) && n.disk.users.keys == s.disk.users.keys
           && n.disk.users.at == s.disk.users.at[name := s.disk.users.at[name].(disabled := disabled)]
      else n == s
  {
  }

  // ---- The projection and the destinations ---------------------------------------------------

  lemma {:induction false} UsedMeans(users: Dict<User>, n: nat)
    requires n <= |users.keys| && IsDict(users)
    ensures var used := UsedSlots(users, n);
      && (forall i, j | 0 <= i < j < |used| :: used[i] != used[j])
      && forall x :: x in used <==> exists k :: 0 <= k < n && users.at[users.keys[k]].slot == Some(x)
  {
    if n > 0 {
      UsedMeans(users, n - 1);
      assert users.keys[n - 1] in users.at;
      var before, slot := UsedSlots(users, n - 1), users.at[users.keys[n - 1]].slot;
      forall x ensures x in UsedSlots(users, n) <==> exists k :: 0 <= k < n && users.at[users.keys[k]].slot == Some(x) {
        if slot == Some(x) {
          assert users.at[users.keys[n - 1]].slot == Some(x);
        } else {
          assert x in UsedSlots(users, n) <==> x in before;
        }
      }
    }
  }

  /** A projection tells the time, the number of accounts, and each held slot once. */
  lemma ProjectsTheAccounts(site: Site, s: State, now: int)
    requires Shaped(s.disk)
    ensures var a := Step(site, s, Project(now)).disk.assignments;
      && Step(site, s, Project(now)) == s.(disk := s.disk.(assignments := a))
      && a.observedAt == Some(now) && a.registered == Some(|s.disk.users.keys|) && a.used.Some?
      && (forall i, j | 0 <= i < j < |a.used.value| :: a.used.value[i] != a.used.value[j])
      && forall x :: x in a.used.value <==> Held(s.disk.users.at, x)
  {
    UsedAreHeld(s.disk.users, |s.disk.users.keys|, UsedSlots(s.disk.users, |s.disk.users.keys|));
  }

  lemma UsedAreHeld(users: Dict<User>, n: nat, used: seq<string>)
    requires IsDict(users) && n == |users.keys| && used == UsedSlots(users, n)
    ensures forall i, j | 0 <= i < j < |used| :: used[i] != used[j]
    ensures forall x :: x in used <==> Held(users.at, x)
  {
    UsedMeans(users, n);
    forall x ensures x in used <==> Held(users.at, x) {
      if Held(users.at, x) {
        var u :| u in users.at && users.at[u].slot == Some(x);
        assert u in users.keys;
        var k :| 0 <= k < n && users.keys[k] == u;
      }
    }
  }

  /** Requests go to the provisioned routes, or to those of the slot that the account
      alone holds in a trusted pool; otherwise nowhere. */
  lemma GoesWhere(site: Site, d: Disk, name: string, to_: Routes)
    ensures Destination(site, d, name) == Some(to_) <==>
      if name in site.targets then to_ == site.targets[name]
      else && name in d.users.at && d.users.at[name].slot.Some? && Trusted(site, d.pool.at)
           && d.users.at[name].slot.value in d.pool.at && to_ == d.pool.at[d.users.at[name].slot.value]
           && forall u | u in d.users.at && u != name :: d.users.at[u].slot != d.users.at[name].slot
  {
    TrustedExactlyWhen(site, d.pool);
    if name in d.users.at && d.users.at[name].slot.Some? { AloneMeans(d.users.at, name, d.users.at[name].slot.value); }
  }

  lemma AloneMeans(users: map<string, User>, name: string, slot: string)
    requires name in users && users[name].slot == Some(slot)
    ensures |Holders(users, slot)| == 1 <==> forall u | u in users && u != name :: users[u].slot != Some(slot)
  {
    var holders := Holders(users, slot);
    assert name in holders;
    if forall u | u in users && u != name :: users[u].slot != Some(slot) {
      assert holders == {name};
    } else {
      var u :| u in users && u != name && users[u].slot == Some(slot);
      assert {name, u} <= holders;
      SubsetIsSmaller({name, u}, holders);
    }
  }
}
