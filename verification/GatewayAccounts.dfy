/** The gateway's three ways to make an account, over its account file. Each
    method is one uninterrupted stretch of the event loop. */
module GatewayAccounts {
  import opened Outcomes
  import opened OrderedDict
  import opened CapacityPlanner
  import opened CapacityProtocol

  datatype AccountError =
    | Taken | Refused(why: Refusal) | AuditFailed | NotSaved | LocalAccountConflict | IdentityConflict | SignUpDisabled

  /** A finished directory sign-in: refused quietly, or signed in. */
  datatype SignIn = Denied | SignedIn(name: string)

  class AccountStore {
    const site: Site
    var users: Dict<User>        // the account file

    constructor (site: Site, users: Dict<User>)
      ensures this.site == site && this.users == users
    {
      this.site, this.users := site, users;
    }

    method Save(value: Dict<User>, works: bool) returns (ok: bool)
      modifies this
      ensures ok == works && users == if works then value else old(users)
    {
      if works { users := value; }
      ok := works;
    }

    /** Local sign-up, from the check on. */
    method Register(pool: Dict<Routes>, inventory: Inventory, a: Assignments, name: string, admitted: bool,
                    strong: bool, audited: bool, saved: bool)
      returns (e: Option<AccountError>)
      modifies this
      ensures var d := Disk(inventory, pool, old(users), a);
        d.(users := users) == CapacityProtocol.Register(site, d, name, admitted, strong, audited && saved)
      ensures e == Some(Taken) <==> name in old(users).at || name in site.admins || name in site.targets
      ensures e.Some? && e.value.Refused? ==>
        NewAccount(site, Disk(inventory, pool, old(users), a), name, admitted, strong) == Failure(e.value.why)
      ensures e.Some? && !e.value.Refused? && e != Some(Taken) ==>
        e == Some(if audited then NotSaved else AuditFailed)
        && NewAccount(site, Disk(inventory, pool, old(users), a), name, admitted, strong).Success?
      ensures e.None? <==> name !in old(users).at && name in users.at
    {
      var loaded := users;
      if name in loaded.at || name in site.admins || name in site.targets { return Some(Taken); }
      var created := NewAccount(site, Disk(inventory, pool, loaded, a), name, admitted, strong);
      if created.Failure? { return Some(Refused(created.error)); }
      if !audited { return Some(AuditFailed); }
      loaded := Put(loaded, name, User(created.value, false, "", false));
      var ok := Save(loaded, saved);
      e := if ok then None else Some(NotSaved);
    }

    /** An administrator's creation of an account. */
    method AdminCreate(pool: Dict<Routes>, inventory: Inventory, a: Assignments, name: string, admitted: bool,
                       strong: bool, audited: bool, saved: bool)
      returns (e: Option<AccountError>)
      modifies this
      ensures var d := Disk(inventory, pool, old(users), a);
        d.(users := users) == CapacityProtocol.AdminCreate(site, d, name, admitted, strong, audited && saved)
      ensures e == Some(Taken) <==> name in old(users).at || name in site.admins
      ensures e.Some? && e.value.Refused? ==>
        NewAccount(site, Disk(inventory, pool, old(users), a), name, admitted, strong) == Failure(e.value.why)
      ensures e.Some? && !e.value.Refused? && e != Some(Taken) ==>
        e == Some(if audited then NotSaved else AuditFailed)
        && NewAccount(site, Disk(inventory, pool, old(users), a), name, admitted, strong).Success?
      ensures e.None? <==> name !in old(users).at && name in users.at
    {
      var loaded := users;
      if name in site.admins { return Some(Taken); }
      if name in loaded.at { return Some(Taken); }
      var created := NewAccount(site, Disk(inventory, pool, loaded, a), name, admitted, strong);
      if created.Failure? { return Some(Refused(created.error)); }
      loaded := Put(loaded, name, User(created.value, false, "", false));
      if !audited { return Some(AuditFailed); }
      var ok := Save(loaded, saved);
      e := if ok then None else Some(NotSaved);
    }

    /** A directory sign-in, from the reload after its await on. A name that any
        local account has in any letter case is refused, and an existing directory
        account is only signed in to by the subject it was made for. */
    method Authenticate(pool: Dict<Routes>, inventory: Inventory, a: Assignments, name: string, subject: string,
                        create: bool, allowed: bool, admitted: bool, audited: bool, saved: bool)
      returns (r: Result<SignIn, AccountError>)
      modifies this
      ensures var d := Disk(inventory, pool, old(users), a);
        d.(users := users) == LdapSignIn(site, d, name, subject, create && allowed, admitted, audited && saved)
      ensures r.Success? && r.value.SignedIn? ==>
        && r.value.name == name && name in users.at
        && users.at[name].ldap && users.at[name].subject == subject && !users.at[name].disabled
      ensures !LdapConflict(site, old(users).at, name) && name in old(users).at ==>
        var user := old(users).at[name];
        r == Success(if user.ldap && user.subject == subject && !user.disabled then SignedIn(name) else Denied)
      ensures !LdapConflict(site, old(users).at, name) && name !in old(users).at ==>
        (name in users.at <==> r == Success(SignedIn(name))) && (!create ==> r == Success(Denied))
      ensures LdapConflict(site, old(users).at, name) <==>
                r == Failure(LocalAccountConflict) || r == Failure(IdentityConflict)
    {
      var loaded := users;
      var matches := Matches(loaded.at, name);
      if name in site.admins || exists u :: u in matches && !loaded.at[u].ldap { return Failure(LocalAccountConflict); }
      if exists u :: u in matches && u != name { return Failure(IdentityConflict); }
      if name in loaded.at {
        if loaded.at[name].disabled || !loaded.at[name].ldap || loaded.at[name].subject != subject {
          return Success(Denied);
        }
        return Success(SignedIn(name));
      }
      if !create { return Success(Denied); }
      if !allowed { return Failure(SignUpDisabled); }
      var created := NewAccount(site, Disk(inventory, pool, loaded, a), name, admitted, true);
      if created.Failure? { return Failure(Refused(created.error)); }
      loaded := Put(loaded, name, User(created.value, true, subject, false));
      if !audited { return Failure(NotSaved); }
      var ok := Save(loaded, saved);
      if !ok { return Failure(NotSaved); }
      r := Success(SignedIn(name));
    }
  }
}
