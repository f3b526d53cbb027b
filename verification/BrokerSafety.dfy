/** What the credential broker keeps in every run: the lock's promises, a vault
    that no held record contradicts, and an approval behind every gated call. */
module BrokerSafety {
  import opened Outcomes
  import opened Basics
  import opened CredentialVault
  import opened CredentialBroker
  import A = ApprovalLedger
  import L = CallLock
  import U = UsageWindow

  type Frames = map<Ticket, Frame>
  type Calls = map<Ticket, L.Call>

  ghost predicate Fit(frames: Frames, calls: Calls) {
    && frames.Keys == calls.Keys
    && forall t | t in frames :: frames[t].Waiting? <==> !calls[t].running
  }

  ghost predicate SameGrants(held: map<Id, Credential>, stored: map<Id, Credential>) {
    held.Keys == stored.Keys && forall k | k in held :: GrantOf(held[k]) == GrantOf(stored[k])
  }

  /** One credential's last use aside, nothing differs. */
  ghost predicate SameButUse(held: map<Id, Credential>, stored: map<Id, Credential>, id: Id) {
    && held.Keys == stored.Keys
    && forall k | k in held ::
      held[k] == if k == id then stored[k].(lastUsedAt := held[k].lastUsedAt) else stored[k]
  }

  ghost predicate SameExcept(held: map<Id, Credential>, stored: map<Id, Credential>, id: Id) {
    forall k | k != id :: (k in held <==> k in stored) && (k in held ==> k in stored && held[k] == stored[k])
  }

  /** The record a suspended call holds is the vault's, up to what it is about
      to change. */
  ghost predicate Current(f: Frame, data: Record) {
    match f
    case Writing(r, id) => r.version == data.version && SameExcept(r.items, data.items, id)
    case Calling(r, action, _) => r == data && action.id in r.items
    case Recording(r, action, _) => r.version == data.version && SameButUse(r.items, data.items, action.id)
    case _ => true
  }

  ghost predicate AllCurrent(frames: Frames, calls: Calls, vault: Vault) {
    forall t | t in frames && t in calls :: Current(frames[t], RecordOf(vault, calls[t].owner))
  }

  ghost predicate WorkInv(lock: L.Lock, frames: Frames, vault: Vault) {
    L.Inv(lock) && Fit(frames, lock.calls) && AllCurrent(frames, lock.calls, vault)
  }

  ghost predicate Inv(s: State) {
    WorkInv(s.lock, s.frames, s.vault) && A.Inv(s.ledger, s.vault)
  }

  // ---- The suspended calls -------------------------------------------------

  lemma AdmittedFits(lock: L.Lock, frames: Frames, vault: Vault, owner: Owner, request: Request)
    requires Fit(frames, lock.calls) && AllCurrent(frames, lock.calls, vault) && lock.issued !in lock.calls
    ensures var calls, fs := L.AdmitStep(lock, owner).calls, frames[lock.issued := Waiting(request)];
            Fit(fs, calls) && AllCurrent(fs, calls, vault)
  {
  }

  lemma AdmittedKeepsWork(lock: L.Lock, frames: Frames, vault: Vault, owner: Owner, request: Request)
    requires WorkInv(lock, frames, vault) && !L.Refused(lock, owner)
    ensures WorkInv(L.AdmitStep(lock, owner), frames[lock.issued := Waiting(request)], vault)
  {
    assert lock.issued !in lock.calls;
    AdmittedFits(lock, frames, vault, owner, request);
    L.AdmitKeepsInv(lock, owner);
  }

  lemma BegunFits(lock: L.Lock, frames: Frames, vault: Vault, t: Ticket, request: Request)
    requires Fit(frames, lock.calls) && AllCurrent(frames, lock.calls, vault) && t in lock.calls
    ensures var calls, fs := L.BeginStep(lock, t).calls, frames[t := Reading(request)];
            Fit(fs, calls) && AllCurrent(fs, calls, vault)
  {
  }

  lemma BegunKeepsWork(lock: L.Lock, frames: Frames, vault: Vault, t: Ticket, request: Request)
    requires WorkInv(lock, frames, vault) && L.CanBegin(lock, t)
    ensures WorkInv(L.BeginStep(lock, t), frames[t := Reading(request)], vault)
  {
    BegunFits(lock, frames, vault, t, request);
    L.BeginKeepsInv(lock, t);
  }

  lemma FinishedKeepsWork(lock: L.Lock, frames: Frames, vault: Vault, t: Ticket)
    requires WorkInv(lock, frames, vault) && L.CanSettle(lock, t)
    ensures WorkInv(L.SettleStep(lock, t), frames - {t}, vault)
  {
    L.SettleKeepsInv(lock, t);
  }

  lemma SuspendedKeepsWork(lock: L.Lock, frames: Frames, vault: Vault, t: Ticket, f: Frame)
    requires WorkInv(lock, frames, vault) && L.CanSettle(lock, t)
    requires !f.Waiting? && Current(f, RecordOf(vault, lock.calls[t].owner))
    ensures WorkInv(lock, frames[t := f], vault)
  {
  }

  /** Only the running call of an owner holds a record of its vault. */
  lemma StoredKeepsWork(lock: L.Lock, frames: Frames, vault: Vault, t: Ticket, record: Record)
    requires WorkInv(lock, frames, vault) && L.CanSettle(lock, t)
    ensures WorkInv(L.SettleStep(lock, t), frames - {t}, Stored(vault, lock.calls[t].owner, record))
  {
    FinishedKeepsWork(lock, frames, vault, t);
    L.RunningIsFirst(lock);
    StoredCurrent(frames, lock.calls, vault, t, lock.calls[t].owner, record);
  }

  lemma StoredCurrent(frames: Frames, calls: Calls, vault: Vault, t: Ticket, owner: Owner, record: Record)
    requires Fit(frames, calls) && AllCurrent(frames, calls, vault)
    requires forall u | u in calls && u != t && calls[u].running :: calls[u].owner != owner
    ensures AllCurrent(frames - {t}, calls - {t}, Stored(vault, owner, record))
  {
  }

  // ---- One event -----------------------------------------------------------

  /** The invariant from its parts. */
  lemma Assembled(n: State, lock: L.Lock, frames: Frames, vault: Vault, ledger: A.Ledger)
    requires WorkInv(lock, frames, vault) && A.Inv(ledger, vault)
    requires n.lock == lock && n.frames == frames && n.vault == vault && n.ledger == ledger
    ensures Inv(n)
  {
  }

  lemma PrunedKeepsLedger(ledger: A.Ledger, vault: Vault, now: int)
    requires A.Inv(ledger, vault)
    ensures A.Inv(A.Pruned(ledger, now), vault)
  {
    A.FewerKeepsInv(ledger, vault, A.Pruned(ledger, now), vault);
  }

  lemma EnterKeepsInv(s: State, owner: Owner, request: Request, now: int)
    requires Inv(s)
    ensures Inv(EnterStep(s, owner, request, now))
  {
    PrunedKeepsLedger(s.ledger, s.vault, now);
    var n := EnterStep(s, owner, request, now);
    if n.lock == s.lock && n.frames == s.frames {
      Assembled(n, s.lock, s.frames, s.vault, A.Pruned(s.ledger, now));
    } else {
      AdmittedKeepsWork(s.lock, s.frames, s.vault, owner, request);
      Assembled(n, L.AdmitStep(s.lock, owner), s.frames[s.lock.issued := Waiting(request)], s.vault,
                A.Pruned(s.ledger, now));
    }
  }

  lemma ResumeKeepsInv(s: State, t: Ticket)
    requires Inv(s) && Enabled(s, Resume(t))
    ensures Inv(ResumeStep(s, t))
  {
    var request := s.frames[t].request;
    BegunKeepsWork(s.lock, s.frames, s.vault, t, request);
    if request.NoVault? {
      FinishedKeepsWork(L.BeginStep(s.lock, t), s.frames[t := Reading(request)], s.vault, t);
    }
  }

  lemma SendKeepsInv(s: State, t: Ticket, data: Record, request: Request, consumed: Option<ApprovalId>, now: int,
                     audited: bool)
    requires Inv(s) && L.CanSettle(s.lock, t) && request.Execute?
    requires data == RecordOf(s.vault, s.lock.calls[t].owner) && request.action.id in data.items
    requires A.Inv(A.Noted(s.ledger, SentFact(s, t, data, request, consumed, now)), s.vault)
    ensures Inv(SendStep(s, t, data, request, consumed, now, audited))
  {
    if audited {
      SuspendedKeepsWork(s.lock, s.frames, s.vault, t, Calling(data, request.action, request.approvalId));
    } else {
      FinishedKeepsWork(s.lock, s.frames, s.vault, t);
    }
  }

  lemma FinishedKeepsInv(s: State, t: Ticket)
    requires Inv(s) && L.CanSettle(s.lock, t)
    ensures Inv(Finished(s, t))
  {
    FinishedKeepsWork(s.lock, s.frames, s.vault, t);
  }

  lemma AskKeepsInv(s: State, t: Ticket, action: A.Action, now: int, newId: ApprovalId)
    requires Inv(s) && L.CanSettle(s.lock, t) && newId !in s.ledger.requestedAt
    requires action.id in RecordOf(s.vault, s.lock.calls[t].owner).items
    ensures Inv(AskStep(s, t, RecordOf(s.vault, s.lock.calls[t].owner), action, now, newId))
  {
    var owner := s.lock.calls[t].owner;
    if |A.LiveOf(s.ledger, owner)| < A.PENDING_LIMIT {
      var grant := GrantOf(RecordOf(s.vault, owner).items[action.id]);
      A.AskedKeepsInv(s.ledger, s.vault, newId, owner, action, grant, now);
      FinishedKeepsInv(s.(ledger := A.Asked(s.ledger, newId, owner, action, grant, now)), t);
    } else {
      FinishedKeepsInv(s, t);
    }
  }

  lemma RedeemKeepsInv(s: State, t: Ticket, data: Record, request: Request, a: ApprovalId, now: int, audited: bool)
    requires Inv(s) && L.CanSettle(s.lock, t) && request.Execute?
    requires data == RecordOf(s.vault, s.lock.calls[t].owner) && request.action.id in data.items
    requires A.Redeemable(s.ledger, a, s.lock.calls[t].owner, request.action)
    ensures Inv(SendStep(s.(ledger := A.Marked(s.ledger, Some(a), A.Dispatched)), t, data, request, Some(a), now,
                         audited))
  {
    A.RedeemedKeepsInv(s.ledger, s.vault, a, SentFact(s, t, data, request, Some(a), now));
    A.MarkedKeepsInv(s.ledger, s.vault, Some(a), A.Dispatched);
    SendKeepsInv(s.(ledger := A.Marked(s.ledger, Some(a), A.Dispatched)), t, data, request, Some(a), now, audited);
  }

  lemma SendFreelyKeepsInv(s: State, t: Ticket, data: Record, request: Request, now: int, audited: bool)
    requires Inv(s) && L.CanSettle(s.lock, t) && request.Execute?
    requires data == RecordOf(s.vault, s.lock.calls[t].owner) && request.action.id in data.items
    ensures Inv(SendStep(s, t, data, request, None, now, audited))
  {
    A.SentFreelyKeepsInv(s.ledger, s.vault, SentFact(s, t, data, request, None, now));
    SendKeepsInv(s, t, data, request, None, now, audited);
  }

  lemma ExecuteKeepsInv(s: State, t: Ticket, request: Request, now: int, audited: bool, newId: ApprovalId)
    requires Inv(s) && L.CanSettle(s.lock, t) && newId !in s.ledger.requestedAt && request.Execute?
    ensures Inv(ExecuteStep(s, t, RecordOf(s.vault, s.lock.calls[t].owner), request, now, audited, newId))
  {
    var owner := s.lock.calls[t].owner;
    var data := RecordOf(s.vault, owner);
    var action := request.action;
    if !ExecuteAccepted(s.profiles, data, request, now) {
      FinishedKeepsInv(s, t);
    } else if !Gated(s.profiles[data.items[action.id].profile].operations[action.operation]) {
      SendFreelyKeepsInv(s, t, data, request, now, audited);
    } else if request.approvalId.None? {
      AskKeepsInv(s, t, action, now, newId);
    } else if !A.Redeemable(s.ledger, request.approvalId.value, owner, action) {
      FinishedKeepsInv(s, t);
    } else {
      RedeemKeepsInv(s, t, data, request, request.approvalId.value, now, audited);
    }
  }

  lemma ApproveKeepsInv(s: State, t: Ticket, a: ApprovalId, now: int, audited: bool)
    requires Inv(s) && L.CanSettle(s.lock, t)
    ensures Inv(ApproveStep(s, t, RecordOf(s.vault, s.lock.calls[t].owner), a, now, audited))
  {
    var owner := s.lock.calls[t].owner;
    FinishedKeepsWork(s.lock, s.frames, s.vault, t);
    if a in s.ledger.pending && s.ledger.pending[a].owner == owner && s.ledger.pending[a].stage == A.Pending {
      A.AllowedKeepsInv(s.ledger, s.vault, a, owner);
    }
  }

  lemma SaveKeepsInv(s: State, t: Ticket, request: Request, now: int, audited: bool)
    requires Inv(s) && L.CanSettle(s.lock, t) && request.Save?
    ensures Inv(SaveStep(s, t, RecordOf(s.vault, s.lock.calls[t].owner), request, now, audited))
  {
    var data := RecordOf(s.vault, s.lock.calls[t].owner);
    var c := request.credential.(disabled := false, updatedAt := now, lastUsedAt := None);
    FinishedKeepsWork(s.lock, s.frames, s.vault, t);
    SuspendedKeepsWork(s.lock, s.frames, s.vault, t,
                       Writing(Record(data.items[request.id := c], data.version), request.id));
  }

  lemma RevokeKeepsInv(s: State, t: Ticket, request: Request, audited: bool)
    requires Inv(s) && L.CanSettle(s.lock, t) && (request.Disable? || request.Delete?)
    ensures Inv(RevokeStep(s, t, RecordOf(s.vault, s.lock.calls[t].owner), request, audited))
  {
    var data := RecordOf(s.vault, s.lock.calls[t].owner);
    FinishedKeepsWork(s.lock, s.frames, s.vault, t);
    if request.id in data.items {
      var items := if request.Delete? then data.items - {request.id}
                   else data.items[request.id := data.items[request.id].(disabled := true)];
      SuspendedKeepsWork(s.lock, s.frames, s.vault, t, Writing(Record(items, data.version), request.id));
    }
  }

  lemma ReadForKeepsInv(s: State, t: Ticket, now: int, audited: bool, newId: ApprovalId, m: State)
    requires Inv(m) && Enabled(s, ReadDone(t, true, now, audited, newId))
    requires var request, data := s.frames[t].request, RecordOf(s.vault, s.lock.calls[t].owner);
             match request
             case Save(_, _, _) => m == SaveStep(s, t, data, request, now, audited)
             case Disable(_) => m == RevokeStep(s, t, data, request, audited)
             case Delete(_) => m == RevokeStep(s, t, data, request, audited)
             case Approve(a) => m == ApproveStep(s, t, data, a, now, audited)
             case Execute(_, _, _) => m == ExecuteStep(s, t, data, request, now, audited, newId)
             case _ => m == Finished(s, t)
    ensures Inv(ReadStep(s, t, true, now, audited, newId))
  {
    assert ReadStep(s, t, true, now, audited, newId) == m;
  }

  lemma ReadKeepsInv(s: State, t: Ticket, ok: bool, now: int, audited: bool, newId: ApprovalId)
    requires Inv(s) && Enabled(s, ReadDone(t, ok, now, audited, newId))
    ensures Inv(ReadStep(s, t, ok, now, audited, newId))
  {
    var request := s.frames[t].request;
    var data := RecordOf(s.vault, s.lock.calls[t].owner);
    FinishedKeepsInv(s, t);
    if ok {
      match request
      case Execute(_, _, _) =>
        ExecuteKeepsInv(s, t, request, now, audited, newId);
        ReadForKeepsInv(s, t, now, audited, newId, ExecuteStep(s, t, data, request, now, audited, newId));
      case Approve(a) =>
        ApproveKeepsInv(s, t, a, now, audited);
        ReadForKeepsInv(s, t, now, audited, newId, ApproveStep(s, t, data, a, now, audited));
      case Save(_, _, _) =>
        SaveKeepsInv(s, t, request, now, audited);
        ReadForKeepsInv(s, t, now, audited, newId, SaveStep(s, t, data, request, now, audited));
      case Disable(_) =>
        RevokeKeepsInv(s, t, request, audited);
        ReadForKeepsInv(s, t, now, audited, newId, RevokeStep(s, t, data, request, audited));
      case Delete(_) =>
        RevokeKeepsInv(s, t, request, audited);
        ReadForKeepsInv(s, t, now, audited, newId, RevokeStep(s, t, data, request, audited));
      case _ =>
        ReadForKeepsInv(s, t, now, audited, newId, Finished(s, t));
    }
  }

  /** A changed credential is stored and its approvals are dropped. */
  lemma PurgedKeepsLedger(ledger: A.Ledger, vault: Vault, owner: Owner, record: Record, id: Id)
    requires A.Inv(ledger, vault) && SameExcept(record.items, RecordOf(vault, owner).items, id)
    ensures A.Inv(A.Purged(ledger, owner, id), Stored(vault, owner, record))
  {
    var stored := Stored(vault, owner, record);
    forall o, k | o != owner || k != id
      ensures StoredGrant(stored, o, k) == StoredGrant(vault, o, k)
    {
    }
    A.FewerKeepsInv(ledger, vault, A.Purged(ledger, owner, id), stored);
  }

  lemma WriteKeepsInv(s: State, t: Ticket, ok: bool)
    requires Inv(s) && Enabled(s, WriteDone(t, ok))
    ensures Inv(WriteStep(s, t, ok))
  {
    var owner, f := s.lock.calls[t].owner, s.frames[t];
    if ok {
      assert Current(f, RecordOf(s.vault, owner));
      StoredKeepsWork(s.lock, s.frames, s.vault, t, f.record);
      PurgedKeepsLedger(s.ledger, s.vault, owner, f.record, f.id);
      Assembled(WriteStep(s, t, ok), L.SettleStep(s.lock, t), s.frames - {t}, Stored(s.vault, owner, f.record),
                A.Purged(s.ledger, owner, f.id));
    } else {
      FinishedKeepsInv(s, t);
    }
  }

  lemma CallKeepsInv(s: State, t: Ticket, ok: bool, now: int)
    requires Inv(s) && Enabled(s, CallDone(t, ok, now))
    ensures Inv(CallStep(s, t, ok, now))
  {
    var f := s.frames[t];
    assert Current(f, RecordOf(s.vault, s.lock.calls[t].owner));
    if ok {
      var used := f.record.items[f.action.id].(lastUsedAt := Some(now));
      SuspendedKeepsWork(s.lock, s.frames, s.vault, t,
                         Recording(f.record.(items := f.record.items[f.action.id := used]), f.action, f.approvalId));
    } else {
      FinishedKeepsWork(s.lock, s.frames, s.vault, t);
      A.MarkedKeepsInv(s.ledger, s.vault, f.approvalId, A.Uncertain);
    }
  }

  /** Recording the last use stores the same grants. */
  lemma UsedKeepsLedger(ledger: A.Ledger, vault: Vault, owner: Owner, record: Record)
    requires A.Inv(ledger, vault) && SameGrants(record.items, RecordOf(vault, owner).items)
    ensures A.Inv(ledger, Stored(vault, owner, record))
  {
    forall o, id
      ensures StoredGrant(Stored(vault, owner, record), o, id) == StoredGrant(vault, o, id)
    {
    }
    A.FewerKeepsInv(ledger, vault, ledger, Stored(vault, owner, record));
  }

  lemma UsedKeepsGrants(held: map<Id, Credential>, stored: map<Id, Credential>, id: Id)
    requires SameButUse(held, stored, id)
    ensures SameGrants(held, stored)
  {
  }

  lemma RecordKeepsInv(s: State, t: Ticket, ok: bool, audited: bool)
    requires Inv(s) && Enabled(s, RecordDone(t, ok, audited))
    ensures Inv(RecordStep(s, t, ok, audited))
  {
    var owner, f := s.lock.calls[t].owner, s.frames[t];
    var stage := if ok && audited then A.Complete else A.Uncertain;
    var marked := A.Marked(s.ledger, f.approvalId, stage);
    A.MarkedKeepsInv(s.ledger, s.vault, f.approvalId, stage);
    if ok {
      assert Current(f, RecordOf(s.vault, owner));
      StoredKeepsWork(s.lock, s.frames, s.vault, t, f.record);
      UsedKeepsGrants(f.record.items, RecordOf(s.vault, owner).items, f.action.id);
      UsedKeepsLedger(marked, s.vault, owner, f.record);
      Assembled(RecordStep(s, t, ok, audited), L.SettleStep(s.lock, t), s.frames - {t},
                Stored(s.vault, owner, f.record), marked);
    } else {
      FinishedKeepsWork(s.lock, s.frames, s.vault, t);
      Assembled(RecordStep(s, t, ok, audited), L.SettleStep(s.lock, t), s.frames - {t}, s.vault, marked);
    }
  }

  lemma {:induction false} NextKeepsInv(s: State, e: Event)
    requires Inv(s) && Enabled(s, e)
    ensures Inv(Next(s, e))
  {
    match e
    case Enter(owner, request, now) => EnterKeepsInv(s, owner, request, now);
    case Resume(t) => ResumeKeepsInv(s, t);
    case ReadDone(t, ok, now, audited, newId) => ReadKeepsInv(s, t, ok, now, audited, newId);
    case WriteDone(t, ok) => WriteKeepsInv(s, t, ok);
    case CallDone(t, ok, now) => CallKeepsInv(s, t, ok, now);
    case RecordDone(t, ok, audited) => RecordKeepsInv(s, t, ok, audited);
  }

  // ---- Every run -----------------------------------------------------------

  lemma {:induction false} RunKeepsInv(s: State, events: seq<Event>)
    requires Inv(s)
    ensures Inv(Run(s, events))
    decreases |events|
  {
    if events != [] {
      if Enabled(s, events[0]) {
        NextKeepsInv(s, events[0]);
      }
      RunKeepsInv(Advance(s, events[0]), events[1..]);
    }
  }

  lemma ReachableInv(profiles: map<string, Profile>, vault: Vault, events: seq<Event>)
    ensures Inv(Run(Start(profiles, vault), events))
  {
    L.EmptyInv();
    A.EmptyInv(vault);
    RunKeepsInv(Start(profiles, vault), events);
  }

  // ---- Every provider call ---------------------------------------------------

  /** A provider call's credential is enabled, unexpired and bound to the
      workspace; its operation is one the credential and its profile list; its
      parameters obey the credential's scopes; and if the operation requires an
      approval, one was consumed. */
  ghost predicate Authorised(profiles: map<string, Profile>, f: A.Fact) {
    f.Sent? ==>
      && !f.credential.disabled && f.credential.expiresAt > f.now && f.credential.workspace == f.action.workspace
      && f.credential.profile in profiles
      && var operations := profiles[f.credential.profile].operations;
      && f.action.operation in operations && f.action.operation in f.credential.operations
      && (forall k | k in f.credential.scopes && k in operations[f.action.operation].parameters ::
            k in f.action.parameters && f.action.parameters[k] == f.credential.scopes[k])
      && (Gated(operations[f.action.operation]) ==> f.consumed.Some?)
  }

  ghost predicate AllAuthorised(profiles: map<string, Profile>, history: seq<A.Fact>) {
    forall i | 0 <= i < |history| :: Authorised(profiles, history[i])
  }

  lemma NotedIsAuthorised(profiles: map<string, Profile>, history: seq<A.Fact>, f: A.Fact)
    requires AllAuthorised(profiles, history) && Authorised(profiles, f)
    ensures AllAuthorised(profiles, history + [f])
  {
  }

  lemma SendIsAuthorised(s: State, t: Ticket, data: Record, request: Request, consumed: Option<ApprovalId>, now: int,
                         audited: bool)
    requires t in s.lock.calls && request.Execute? && AllAuthorised(s.profiles, s.ledger.history)
    requires ExecuteAccepted(s.profiles, data, request, now)
    requires Gated(s.profiles[data.items[request.action.id].profile].operations[request.action.operation]) ==>
      consumed.Some?
    ensures AllAuthorised(s.profiles, SendStep(s, t, data, request, consumed, now, audited).ledger.history)
  {
    NotedIsAuthorised(s.profiles, s.ledger.history, SentFact(s, t, data, request, consumed, now));
  }

  lemma AskIsAuthorised(s: State, t: Ticket, data: Record, action: A.Action, now: int, newId: ApprovalId)
    requires t in s.lock.calls && action.id in data.items && AllAuthorised(s.profiles, s.ledger.history)
    ensures AllAuthorised(s.profiles, AskStep(s, t, data, action, now, newId).ledger.history)
  {
    NotedIsAuthorised(s.profiles, s.ledger.history, A.Requested(newId, s.lock.calls[t].owner, action,
                                                                GrantOf(data.items[action.id]), now + A.APPROVAL_LIFE));
  }

  lemma ExecuteIsAuthorised(s: State, t: Ticket, data: Record, request: Request, now: int, audited: bool,
                            newId: ApprovalId)
    requires t in s.lock.calls && request.Execute? && AllAuthorised(s.profiles, s.ledger.history)
    ensures AllAuthorised(s.profiles, ExecuteStep(s, t, data, request, now, audited, newId).ledger.history)
  {
    if ExecuteAccepted(s.profiles, data, request, now) {
      if !Gated(s.profiles[data.items[request.action.id].profile].operations[request.action.operation]) {
        SendIsAuthorised(s, t, data, request, None, now, audited);
      } else if request.approvalId.None? {
        AskIsAuthorised(s, t, data, request.action, now, newId);
      } else {
        var spent := s.(ledger := A.Marked(s.ledger, request.approvalId, A.Dispatched));
        SendIsAuthorised(spent, t, data, request, request.approvalId, now, audited);
      }
    }
  }

  lemma ReadIsAuthorised(s: State, t: Ticket, ok: bool, now: int, audited: bool, newId: ApprovalId)
    requires Enabled(s, ReadDone(t, ok, now, audited, newId)) && AllAuthorised(s.profiles, s.ledger.history)
    ensures AllAuthorised(s.profiles, ReadStep(s, t, ok, now, audited, newId).ledger.history)
  {
    var request, data := s.frames[t].request, RecordOf(s.vault, s.lock.calls[t].owner);
    if request.Execute? {
      ExecuteIsAuthorised(s, t, data, request, now, audited, newId);
    } else if request.Approve? {
      NotedIsAuthorised(s.profiles, s.ledger.history, A.Granted(request.approval, s.lock.calls[t].owner));
    }
  }

  lemma {:induction false} RunIsAuthorised(s: State, events: seq<Event>)
    requires AllAuthorised(s.profiles, s.ledger.history)
    ensures AllAuthorised(s.profiles, Run(s, events).ledger.history)
    decreases |events|
  {
    if events != [] {
      var e, n := events[0], Advance(s, events[0]);
      if Enabled(s, e) && e.ReadDone? {
        ReadIsAuthorised(s, e.ticket, e.ok, e.now, e.audited, e.newId);
      } else {
        assert n.ledger.history == s.ledger.history;
      }
      ProfilesStay(s, e);
      RunIsAuthorised(n, events[1..]);
    }
  }

  lemma ProfilesStay(s: State, e: Event)
    ensures Advance(s, e).profiles == s.profiles
  {
  }

  /** In every run every provider call is authorised, a call of an operation that
      requires approval consumes one, and every approval that a call consumes
      was given by its owner for that action and that very grant, and is
      consumed by that call alone. */
  lemma EveryGatedCallIsApprovedOnce(profiles: map<string, Profile>, vault: Vault, events: seq<Event>)
    ensures var h := Run(Start(profiles, vault), events).ledger.history;
            && (forall i | 0 <= i < |h| && h[i].Sent? :: Authorised(profiles, h[i]))
            && (forall i | 0 <= i < |h| && h[i].Sent? && h[i].consumed.Some? :: A.Justified(h, i))
            && (forall i, j | 0 <= i < j < |h| && h[i].Sent? && h[j].Sent? && h[i].consumed.Some? ::
                  h[i].consumed != h[j].consumed)
  {
    ReachableInv(profiles, vault, events);
    RunIsAuthorised(Start(profiles, vault), events);
    var s := Run(Start(profiles, vault), events);
    A.ConsumedAreJustified(s.ledger, s.vault);
  }

  // ---- No expired approval ---------------------------------------------------

  /** The event's reading of the clock, where the broker takes one that matters. */
  function ClockAfter(e: Event, before: int): int {
    if e.Enter? || e.ReadDone? then e.now else before
  }

  ghost predicate Clocked(events: seq<Event>, before: int) {
    events == [] || (before <= ClockAfter(events[0], before) && Clocked(events[1..], ClockAfter(events[0], before)))
  }

  /** When each admitted call entered. */
  function EntryTimes(s: State, events: seq<Event>, entered: map<Ticket, int>): map<Ticket, int>
    decreases |events|
  {
    if events == [] then entered
    else EntryTimes(Advance(s, events[0]), events[1..], EnteredAfter(s, events[0], entered))
  }

  function EnteredAfter(s: State, e: Event, entered: map<Ticket, int>): map<Ticket, int> {
    if e.Enter? && Advance(s, e).lock.issued > s.lock.issued then entered[s.lock.issued := e.now] else entered
  }

  /** The call at this fact entered before the approval it consumed expired. */
  ghost predicate InTime(history: seq<A.Fact>, f: A.Fact, entered: map<Ticket, int>) {
    f.Sent? && f.consumed.Some? ==>
      && f.ticket in entered
      && exists k | 0 <= k < |history| ::
           && A.Asks(history[k], f.consumed.value, f.owner, f.action, GrantOf(f.credential))
           && history[k].expiresAt > entered[f.ticket]
  }

  ghost predicate AllInTime(history: seq<A.Fact>, entered: map<Ticket, int>) {
    forall i | 0 <= i < |history| :: InTime(history, history[i], entered)
  }

  /** No live approval had expired when any unfinished call entered. */
  ghost predicate AllLive(pending: map<ApprovalId, A.Approval>, calls: Calls, entered: map<Ticket, int>) {
    forall a, t | a in pending && t in calls && t in entered :: pending[a].expiresAt > entered[t]
  }

  ghost predicate Dated(lock: L.Lock, entered: map<Ticket, int>, now: int) {
    && lock.calls.Keys <= entered.Keys
    && forall t | t in entered :: t < lock.issued && entered[t] <= now
  }

  ghost predicate Timely(lock: L.Lock, ledger: A.Ledger, entered: map<Ticket, int>, now: int) {
    Dated(lock, entered, now) && AllLive(ledger.pending, lock.calls, entered) && AllInTime(ledger.history, entered)
  }

  /** Approvals stay as long as they were, or are new. */
  ghost predicate NoShorter(before: map<ApprovalId, A.Approval>, after: map<ApprovalId, A.Approval>, now: int) {
    forall a | a in after :: (a in before && after[a].expiresAt == before[a].expiresAt) || after[a].expiresAt > now
  }

  /** The ledger changes, and at most one fact is noted. */
  lemma LedgerStaysTimely(lock: L.Lock, l: A.Ledger, entered: map<Ticket, int>, before: int, now: int, n: A.Ledger,
                          noted: seq<A.Fact>)
    requires Timely(lock, l, entered, before) && before <= now && NoShorter(l.pending, n.pending, now)
    requires n.history == l.history + noted && forall f | f in noted :: InTime(l.history, f, entered)
    ensures Timely(lock, n, entered, now)
  {
    forall i | 0 <= i < |n.history|
      ensures InTime(n.history, n.history[i], entered)
    {
      InTimeStays(l.history, noted, n.history[i], entered);
    }
  }

  lemma InTimeStays(history: seq<A.Fact>, noted: seq<A.Fact>, f: A.Fact, entered: map<Ticket, int>)
    requires InTime(history, f, entered)
    ensures InTime(history + noted, f, entered)
  {
    if f.Sent? && f.consumed.Some? {
      var k :| 0 <= k < |history| && A.Asks(history[k], f.consumed.value, f.owner, f.action, GrantOf(f.credential))
               && history[k].expiresAt > entered[f.ticket];
      assert (history + noted)[k] == history[k];
    }
  }

  lemma SettledIsTimely(lock: L.Lock, ledger: A.Ledger, entered: map<Ticket, int>, now: int, t: Ticket)
    requires Timely(lock, ledger, entered, now) && t in lock.calls
    ensures Timely(L.SettleStep(lock, t), ledger, entered, now)
  {
  }

  lemma EnteredIsTimely(lock: L.Lock, ledger: A.Ledger, entered: map<Ticket, int>, owner: Owner, now: int)
    requires Timely(lock, ledger, entered, now)
    requires forall a | a in ledger.pending :: ledger.pending[a].expiresAt > now
    ensures Timely(L.AdmitStep(lock, owner), ledger, entered[lock.issued := now], now)
  {
    var later := entered[lock.issued := now];
    forall i | 0 <= i < |ledger.history|
      ensures InTime(ledger.history, ledger.history[i], later)
    {
      assert InTime(ledger.history, ledger.history[i], entered);
    }
  }

  lemma EnterIsTimely(s: State, owner: Owner, request: Request, now: int, entered: map<Ticket, int>, before: int)
    requires Timely(s.lock, s.ledger, entered, before) && before <= now
    ensures var n := EnterStep(s, owner, request, now);
            Timely(n.lock, n.ledger, EnteredAfter(s, Enter(owner, request, now), entered), now)
  {
    var pruned := A.Pruned(s.ledger, now);
    LedgerStaysTimely(s.lock, s.ledger, entered, before, now, pruned, []);
    EnteredIsTimely(s.lock, pruned, entered, owner, now);
  }

  /** The approval that a call redeems was asked for, and is live. */
  lemma RedeemedInTime(lock: L.Lock, l: A.Ledger, vault: Vault, a: ApprovalId, f: A.Fact, entered: map<Ticket, int>,
                       now: int)
    requires A.Inv(l, vault) && Timely(lock, l, entered, now)
    requires f.Sent? && f.ticket in lock.calls && f.consumed == Some(a) && A.Redeemable(l, a, f.owner, f.action)
    requires StoredGrant(vault, f.owner, f.action.id) == Some(GrantOf(f.credential))
    ensures InTime(l.history, f, entered)
  {
    assert A.Backed(l, vault, a);
    var k := l.requestedAt[a];
    assert A.Asks(l.history[k], a, f.owner, f.action, GrantOf(f.credential));
  }

  lemma SendIsTimely(s: State, t: Ticket, data: Record, request: Request, consumed: Option<ApprovalId>, now: int,
                     audited: bool, entered: map<Ticket, int>)
    requires Timely(s.lock, s.ledger, entered, now) && t in s.lock.calls && request.Execute?
    requires request.action.id in data.items
    requires InTime(s.ledger.history, SentFact(s, t, data, request, consumed, now), entered)
    ensures var n := SendStep(s, t, data, request, consumed, now, audited); Timely(n.lock, n.ledger, entered, now)
  {
    var f := SentFact(s, t, data, request, consumed, now);
    LedgerStaysTimely(s.lock, s.ledger, entered, now, now, A.Noted(s.ledger, f), [f]);
    SettledIsTimely(s.lock, s.ledger, entered, now, t);
  }

  lemma RedeemIsTimely(s: State, t: Ticket, data: Record, request: Request, a: ApprovalId, now: int, audited: bool,
                       entered: map<Ticket, int>)
    requires A.Inv(s.ledger, s.vault) && Timely(s.lock, s.ledger, entered, now) && t in s.lock.calls && request.Execute?
    requires data == RecordOf(s.vault, s.lock.calls[t].owner) && request.action.id in data.items
    requires A.Redeemable(s.ledger, a, s.lock.calls[t].owner, request.action)
    ensures var spent := s.(ledger := A.Marked(s.ledger, Some(a), A.Dispatched));
            var n := SendStep(spent, t, data, request, Some(a), now, audited);
            Timely(n.lock, n.ledger, entered, now)
  {
    var spent := A.Marked(s.ledger, Some(a), A.Dispatched);
    RedeemedInTime(s.lock, s.ledger, s.vault, a, SentFact(s, t, data, request, Some(a), now), entered, now);
    LedgerStaysTimely(s.lock, s.ledger, entered, now, now, spent, []);
    SendIsTimely(s.(ledger := spent), t, data, request, Some(a), now, audited, entered);
  }

  lemma AskIsTimely(s: State, t: Ticket, data: Record, action: A.Action, now: int, newId: ApprovalId,
                    entered: map<Ticket, int>)
    requires Timely(s.lock, s.ledger, entered, now) && t in s.lock.calls && action.id in data.items
    ensures var n := AskStep(s, t, data, action, now, newId); Timely(n.lock, n.ledger, entered, now)
  {
    var owner, grant := s.lock.calls[t].owner, GrantOf(data.items[action.id]);
    var asked := A.Asked(s.ledger, newId, owner, action, grant, now);
    LedgerStaysTimely(s.lock, s.ledger, entered, now, now, asked,
                      [A.Requested(newId, owner, action, grant, now + A.APPROVAL_LIFE)]);
    SettledIsTimely(s.lock, asked, entered, now, t);
    SettledIsTimely(s.lock, s.ledger, entered, now, t);
  }

  lemma ExecuteIsTimely(s: State, t: Ticket, data: Record, request: Request, now: int, audited: bool, newId: ApprovalId,
                        entered: map<Ticket, int>)
    requires A.Inv(s.ledger, s.vault) && Timely(s.lock, s.ledger, entered, now) && t in s.lock.calls && request.Execute?
    requires data == RecordOf(s.vault, s.lock.calls[t].owner)
    ensures var n := ExecuteStep(s, t, data, request, now, audited, newId); Timely(n.lock, n.ledger, entered, now)
  {
    if !ExecuteAccepted(s.profiles, data, request, now) {
      SettledIsTimely(s.lock, s.ledger, entered, now, t);
    } else if !Gated(s.profiles[data.items[request.action.id].profile].operations[request.action.operation]) {
      SendIsTimely(s, t, data, request, None, now, audited, entered);
    } else if request.approvalId.None? {
      AskIsTimely(s, t, data, request.action, now, newId, entered);
    } else if !A.Redeemable(s.ledger, request.approvalId.value, s.lock.calls[t].owner, request.action) {
      SettledIsTimely(s.lock, s.ledger, entered, now, t);
    } else {
      RedeemIsTimely(s, t, data, request, request.approvalId.value, now, audited, entered);
    }
  }

  lemma ApproveIsTimely(s: State, t: Ticket, data: Record, a: ApprovalId, now: int, audited: bool,
                        entered: map<Ticket, int>)
    requires Timely(s.lock, s.ledger, entered, now) && t in s.lock.calls
    ensures var n := ApproveStep(s, t, data, a, now, audited); Timely(n.lock, n.ledger, entered, now)
  {
    var owner := s.lock.calls[t].owner;
    var allowed := A.Allowed(s.ledger, a, owner);
    LedgerStaysTimely(s.lock, s.ledger, entered, now, now, allowed, [A.Granted(a, owner)]);
    SettledIsTimely(s.lock, allowed, entered, now, t);
    SettledIsTimely(s.lock, s.ledger, entered, now, t);
  }

  lemma ReadIsTimely(s: State, t: Ticket, ok: bool, now: int, audited: bool, newId: ApprovalId,
                     entered: map<Ticket, int>)
    requires A.Inv(s.ledger, s.vault) && Timely(s.lock, s.ledger, entered, now)
    requires Enabled(s, ReadDone(t, ok, now, audited, newId))
    ensures var n := ReadStep(s, t, ok, now, audited, newId); Timely(n.lock, n.ledger, entered, now)
  {
    var request, data := s.frames[t].request, RecordOf(s.vault, s.lock.calls[t].owner);
    if ok && request.Execute? {
      ExecuteIsTimely(s, t, data, request, now, audited, newId, entered);
    } else if ok && request.Approve? {
      ApproveIsTimely(s, t, data, request.approval, now, audited, entered);
    } else {
      PlainReadIsTimely(s, t, ok, now, audited, newId, entered);
    }
  }

  lemma PlainReadIsTimely(s: State, t: Ticket, ok: bool, now: int, audited: bool, newId: ApprovalId,
                          entered: map<Ticket, int>)
    requires Timely(s.lock, s.ledger, entered, now) && Enabled(s, ReadDone(t, ok, now, audited, newId))
    requires !ok || !(s.frames[t].request.Execute? || s.frames[t].request.Approve?)
    ensures var n := ReadStep(s, t, ok, now, audited, newId); Timely(n.lock, n.ledger, entered, now)
  {
    SameLedgerIsTimely(s, ReadStep(s, t, ok, now, audited, newId), t, entered, now);
  }

  lemma SameLedgerIsTimely(s: State, n: State, t: Ticket, entered: map<Ticket, int>, now: int)
    requires Timely(s.lock, s.ledger, entered, now) && t in s.lock.calls && n.ledger == s.ledger
    requires n.lock == s.lock || n.lock == L.SettleStep(s.lock, t)
    ensures Timely(n.lock, n.ledger, entered, now)
  {
    SettledIsTimely(s.lock, s.ledger, entered, now, t);
  }

  /** The other events note nothing and lengthen no approval. */
  lemma OtherIsQuiet(s: State, e: Event, now: int)
    requires Enabled(s, e) && !e.Enter? && !e.ReadDone?
    ensures var n := Next(s, e);
      && n.lock.issued == s.lock.issued && n.lock.calls.Keys <= s.lock.calls.Keys
      && NoShorter(s.ledger.pending, n.ledger.pending, now) && n.ledger.history == s.ledger.history
  {
  }

  lemma OtherIsTimely(s: State, e: Event, entered: map<Ticket, int>, now: int)
    requires Timely(s.lock, s.ledger, entered, now) && Enabled(s, e) && !e.Enter? && !e.ReadDone?
    ensures var n := Next(s, e); Timely(n.lock, n.ledger, entered, now)
  {
    var n := Next(s, e);
    OtherIsQuiet(s, e, now);
    FewerCallsAreTimely(s.lock, n.lock, s.ledger, entered, now);
    LedgerStaysTimely(n.lock, s.ledger, entered, now, now, n.ledger, []);
  }

  lemma FewerCallsAreTimely(lock: L.Lock, n: L.Lock, ledger: A.Ledger, entered: map<Ticket, int>, now: int)
    requires Timely(lock, ledger, entered, now) && n.issued == lock.issued && n.calls.Keys <= lock.calls.Keys
    ensures Timely(n, ledger, entered, now)
  {
  }

  lemma NextIsTimely(s: State, e: Event, entered: map<Ticket, int>, before: int)
    requires A.Inv(s.ledger, s.vault) && Timely(s.lock, s.ledger, entered, before) && before <= ClockAfter(e, before)
    ensures var n := Advance(s, e); Timely(n.lock, n.ledger, EnteredAfter(s, e, entered), ClockAfter(e, before))
  {
    LedgerStaysTimely(s.lock, s.ledger, entered, before, ClockAfter(e, before), s.ledger, []);
    if Enabled(s, e) {
      match e
      case Enter(owner, request, now) => EnterIsTimely(s, owner, request, now, entered, before);
      case ReadDone(t, ok, now, audited, newId) => ReadIsTimely(s, t, ok, now, audited, newId, entered);
      case _ => OtherIsTimely(s, e, entered, before);
    }
  }

  lemma AdvanceKeepsInv(s: State, e: Event)
    requires Inv(s)
    ensures Inv(Advance(s, e))
  {
    if Enabled(s, e) { NextKeepsInv(s, e); }
  }

  lemma {:induction false} RunIsTimely(s: State, events: seq<Event>, entered: map<Ticket, int>, before: int)
    requires Inv(s) && Timely(s.lock, s.ledger, entered, before) && Clocked(events, before)
    ensures AllInTime(Run(s, events).ledger.history, EntryTimes(s, events, entered))
    decreases |events|
  {
    if events != [] {
      AdvanceKeepsInv(s, events[0]);
      NextIsTimely(s, events[0], entered, before);
      RunIsTimely(Advance(s, events[0]), events[1..], EnteredAfter(s, events[0], entered),
                  ClockAfter(events[0], before));
    }
  }

  /** In every run under a non-decreasing clock, an approval that a provider call
      consumed had not expired when that call entered. */
  lemma ConsumedBeforeExpiry(profiles: map<string, Profile>, vault: Vault, events: seq<Event>, start: int)
    requires Clocked(events, start)
    ensures AllInTime(Run(Start(profiles, vault), events).ledger.history,
                      EntryTimes(Start(profiles, vault), events, map[]))
  {
    L.EmptyInv();
    A.EmptyInv(vault);
    RunIsTimely(Start(profiles, vault), events, map[], start);
  }

  /** While the broker is the vault's only writer no write is ever refused for
      its version, in any run: every held record carries the stored version. */
  lemma NoVersionConflict(profiles: map<string, Profile>, vault: Vault, events: seq<Event>, t: Ticket)
    ensures var s := Run(Start(profiles, vault), events);
            t in s.lock.calls && t in s.frames && HoldsRecord(s.frames[t]) ==> VersionMatches(s, t)
  {
    ReachableInv(profiles, vault, events);
    var s := Run(Start(profiles, vault), events);
    if t in s.lock.calls && t in s.frames {
      assert Current(s.frames[t], RecordOf(s.vault, s.lock.calls[t].owner));
    }
  }

  /** In every run a live approval was requested for a credential that is still
      stored with the same grant, and no owner holds more than 16 approvals. */
  lemma LiveApprovalsMatchTheVault(profiles: map<string, Profile>, vault: Vault, events: seq<Event>, a: ApprovalId)
    ensures var s := Run(Start(profiles, vault), events);
            a in s.ledger.pending ==>
              var p := s.ledger.pending[a];
              var grant := StoredGrant(s.vault, p.owner, p.action.id);
              && grant.Some?
              && A.Requested(a, p.owner, p.action, grant.value, p.expiresAt) in s.ledger.history
              && |A.LiveOf(s.ledger, p.owner)| <= A.PENDING_LIMIT
  {
    ReachableInv(profiles, vault, events);
    var s := Run(Start(profiles, vault), events);
    if a in s.ledger.pending {
      assert A.Backed(s.ledger, s.vault, a);
      assert |A.LiveOf(s.ledger, s.ledger.pending[a].owner)| <= A.PENDING_LIMIT;
    }
  }

  /** In every run at most one call of an owner is past its wait for the lock,
      and an owner's bodies have started in the order of their admission. */
  lemma OneBodyPerOwner(profiles: map<string, Profile>, vault: Vault, events: seq<Event>, t: Ticket, u: Ticket)
    ensures var s := Run(Start(profiles, vault), events);
            && s.frames.Keys == s.lock.calls.Keys
            && (t in s.frames && u in s.frames && !s.frames[t].Waiting? && !s.frames[u].Waiting? ==>
                  s.lock.calls[t].owner == s.lock.calls[u].owner ==> t == u)
            && (forall i, j | 0 <= i < j < |s.lock.begun| && s.lock.begun[i].1 == s.lock.begun[j].1 ::
                  s.lock.begun[i].0 < s.lock.begun[j].0)
  {
    ReachableInv(profiles, vault, events);
    L.RunningIsFirst(Run(Start(profiles, vault), events).lock);
  }

  /** The counters of the lock mean what they say in every run of the broker. */
  lemma EveryRunIsAccounted(profiles: map<string, Profile>, vault: Vault, events: seq<Event>, o: Owner)
    ensures var s := Run(Start(profiles, vault), events).lock;
      s.inflight == L.Total(s.queued) && s.inflight == |s.calls| <= L.TOTAL_LIMIT
    ensures var s := Run(Start(profiles, vault), events).lock; L.QueuedFor(s, o) == |L.Mine(s, o)| <= L.OWNER_LIMIT
    ensures var s := Run(Start(profiles, vault), events).lock; o in s.locks <==> L.QueuedFor(s, o) > 0
  {
    ReachableInv(profiles, vault, events);
    L.Accounting(Run(Start(profiles, vault), events).lock, o);
  }

  // ---- The rate window in the broker ---------------------------------------

  /** The calls that reach the rate window, in order. */
  function Arrivals(events: seq<Event>): seq<U.Arrival> {
    if events == [] then [] else Arrived(events[0]) + Arrivals(events[1..])
  }

  function Arrived(e: Event): seq<U.Arrival> {
    if e.Enter? then [U.Arrival(e.owner, e.now, e.request.Execute?)] else []
  }

  lemma EnterCharges(s: State, owner: Owner, request: Request, now: int)
    ensures EnterStep(s, owner, request, now).usage == U.NextUsage(s.usage, U.Arrival(owner, now, request.Execute?))
  {
  }

  lemma OthersDoNotCharge(s: State, e: Event)
    requires !e.Enter? && Enabled(s, e)
    ensures Next(s, e).usage == s.usage
  {
  }

  /** Only a call's entry changes the usage windows, and it charges one arrival. */
  lemma StepCharges(s: State, e: Event, before: seq<U.Arrival>, n: State)
    requires s.usage == U.Run(before).usage && n == Advance(s, e)
    ensures n.usage == U.Run(before + Arrived(e)).usage
  {
    if e.Enter? {
      EnterCharges(s, e.owner, e.request, e.now);
      U.RunSnoc(before, U.Arrival(e.owner, e.now, e.request.Execute?));
    } else {
      assert before + Arrived(e) == before;
      if Enabled(s, e) { OthersDoNotCharge(s, e); }
    }
  }

  lemma {:induction false} UsageFollows(s: State, before: seq<U.Arrival>, events: seq<Event>)
    requires s.usage == U.Run(before).usage
    ensures Run(s, events).usage == U.Run(before + Arrivals(events)).usage
    decreases |events|
  {
    if events == [] {
      assert before + Arrivals(events) == before;
    } else {
      var n := Advance(s, events[0]);
      StepCharges(s, events[0], before, n);
      var more := before + Arrived(events[0]);
      UsageFollows(n, more, events[1..]);
      Regrouped(before, Arrived(events[0]), Arrivals(events[1..]));
    }
  }

  /** In every run of the broker under a non-decreasing clock, whatever else
      happens between the calls, the rate window passes at most 239 calls and
      40 executes of an owner in any half-open minute. */
  lemma BrokerMinuteBound(profiles: map<string, Profile>, vault: Vault, events: seq<Event>, owner: Owner, from: int)
    requires U.NonDecreasing(Arrivals(events))
    ensures Run(Start(profiles, vault), events).usage == U.Run(Arrivals(events)).usage
    ensures U.InInterval(U.Run(Arrivals(events)).log, owner, from, false) <= 239
    ensures U.InInterval(U.Run(Arrivals(events)).log, owner, from, true) <= 40
  {
    UsageFollows(Start(profiles, vault), [], events);
    assert [] + Arrivals(events) == Arrivals(events);
    U.MinuteBound(Arrivals(events), owner, from);
  }
}
