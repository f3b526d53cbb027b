/** When the broker does what a request asks: each answer's exact condition, told
    from the request, the stored credential and the live approvals. */
module BrokerAnswers {
  import opened Outcomes
  import opened CredentialVault
  import opened CredentialBroker
  import opened BrokerPromises
  import A = ApprovalLedger
  import L = CallLock
  import U = UsageWindow

  type Pendings = map<ApprovalId, A.Approval>

  /** The call is over, and with it went nothing else. */
  ghost predicate Ended(s: State, n: State, t: Ticket) {
    n.frames == s.frames - {t} && t !in n.lock.calls && n.vault == s.vault && n.usage == s.usage
  }

  ghost predicate Reads(s: State, t: Ticket, request: Request, owner: Owner, now: int, audited: bool, newId: ApprovalId)
    {
    && Enabled(s, ReadDone(t, true, now, audited, newId))
    && s.frames[t] == Reading(request) && s.lock.calls[t].owner == owner
  }

  /** Enabled, unexpired and of this workspace. */
  predicate InForce(items: Items, id: Id, workspace: Workspace, now: int) {
    id in items && !items[id].disabled && now < items[id].expiresAt && items[id].workspace == workspace
  }

  // ---- Save, disable, delete -------------------------------------------------------------

  /** A known profile, an expiry within ninety days, some of the profile's operations,
      and room for 32 credentials. */
  ghost predicate MaySave(profiles: map<string, Profile>, items: Items, r: Request, now: int)
    requires r.Save?
  {
    && r.wellFormed && r.credential.profile in profiles
    && now < r.credential.expiresAt <= now + 7_776_000_000
    && (exists o :: o in r.credential.operations)
    && (forall o | o in r.credential.operations :: o in profiles[r.credential.profile].operations)
    && (r.id in items || |items| < 32)
  }

  /** A save goes to the vault exactly when it may and its audit record is kept. */
  lemma SavesExactlyWhen(s: State, t: Ticket, r: Request, owner: Owner, now: int, audited: bool, newId: ApprovalId)
    requires Reads(s, t, r, owner, now, audited, newId) && r.Save?
    ensures var n, data := Advance(s, ReadDone(t, true, now, audited, newId)), RecordOf(s.vault, owner);
      && n.ledger == s.ledger && n.vault == s.vault
      && if MaySave(s.profiles, data.items, r, now) && audited
         then && t in n.frames && n.frames[t].Writing? && n.frames[t].id == r.id
              && n.frames[t].record.version == data.version && n.lock == s.lock
              && Does(r, data.items, n.frames[t].record.items) && n.frames[t].record.items[r.id].updatedAt == now
         else Ended(s, n, t)
  {
  }

  /** A disable or delete goes to the vault exactly when the credential is stored and
      the audit record is kept. */
  lemma RevokesExactlyWhen(s: State, t: Ticket, r: Request, owner: Owner, now: int, audited: bool, newId: ApprovalId)
    requires Reads(s, t, r, owner, now, audited, newId) && (r.Disable? || r.Delete?)
    ensures var n, data := Advance(s, ReadDone(t, true, now, audited, newId)), RecordOf(s.vault, owner);
      && n.ledger == s.ledger && n.vault == s.vault
      && if r.id in data.items && audited
         then && t in n.frames && n.frames[t].Writing? && n.frames[t].id == r.id
              && n.frames[t].record.version == data.version && n.lock == s.lock
              && Does(r, data.items, n.frames[t].record.items)
         else Ended(s, n, t)
  {
  }

  // ---- Approve ----------------------------------------------------------------------------

  /** An approval is given exactly for the owner's own pending request while its
      credential is in force, and the audit record is kept. */
  lemma ApprovesExactlyWhen(s: State, t: Ticket, a: ApprovalId, owner: Owner, now: int, audited: bool,
                            newId: ApprovalId)
    requires Reads(s, t, Approve(a), owner, now, audited, newId)
    ensures var n, pending := Advance(s, ReadDone(t, true, now, audited, newId)), s.ledger.pending;
      && Ended(s, n, t)
      && if && a in pending && pending[a].owner == owner && pending[a].stage == A.Pending && audited
            && InForce(RecordOf(s.vault, owner).items, pending[a].action.id, pending[a].action.workspace, now)
         then && n.ledger.history == s.ledger.history + [A.Granted(a, owner)]
              && n.ledger.pending == pending[a := pending[a].(stage := A.Approved)]
         else n.ledger == s.ledger
  {
  }

  // ---- Execute ----------------------------------------------------------------------------

  /** The credential is in force, it and its profile list the operation, and the
      parameters are the operation's and obey the credential's scopes. */
  ghost predicate MayExecute(profiles: map<string, Profile>, items: Items, r: Request, now: int)
    requires r.Execute?
  {
    && r.wellFormed && InForce(items, r.action.id, r.action.workspace, now)
    && var c := items[r.action.id];
    && c.profile in profiles && r.action.operation in profiles[c.profile].operations
    && r.action.operation in c.operations
    && var op := profiles[c.profile].operations[r.action.operation];
    && (forall k | k in r.action.parameters :: k in op.parameters)
    && forall k | k in c.scopes && k in op.parameters ::
         k in r.action.parameters && r.action.parameters[k] == c.scopes[k]
  }

  /** A write, or one that the profile marks. */
  predicate NeedsApproval(profiles: map<string, Profile>, items: Items, a: A.Action) {
    && a.id in items && items[a.id].profile in profiles && a.operation in profiles[items[a.id].profile].operations
    && var op := profiles[items[a.id].profile].operations[a.operation];
       (op.requiresApproval || !op.isGet)
  }

  predicate IsApproved(pending: Pendings, approval: Option<ApprovalId>, owner: Owner, a: A.Action) {
    && approval.Some? && approval.value in pending
    && pending[approval.value].owner == owner && pending[approval.value].action == a
    && pending[approval.value].stage == A.Approved
  }

  function Own(pending: Pendings, owner: Owner): set<ApprovalId> { set a | a in pending && pending[a].owner == owner }

  /** The provider is called exactly when the request may be executed, it has the
      approval it needs, and the audit record is kept; the approval is then spent. */
  lemma SendsExactlyWhen(s: State, t: Ticket, r: Request, owner: Owner, now: int, audited: bool, newId: ApprovalId)
    requires Reads(s, t, r, owner, now, audited, newId) && r.Execute?
    ensures var n, data := Advance(s, ReadDone(t, true, now, audited, newId)), RecordOf(s.vault, owner);
      var needs := NeedsApproval(s.profiles, data.items, r.action);
      (t in n.frames && n.frames[t].Calling?) <==>
        && audited && MayExecute(s.profiles, data.items, r, now)
        && (needs ==> IsApproved(s.ledger.pending, r.approvalId, owner, r.action))
  {
    var data := RecordOf(s.vault, owner);
    assert MayExecute(s.profiles, data.items, r, now) <==> ExecuteAccepted(s.profiles, data, r, now);
  }

  /** What is noted of the call, and what it leaves of its approval. */
  lemma SentIsNoted(s: State, t: Ticket, r: Request, owner: Owner, now: int, audited: bool, newId: ApprovalId)
    requires Reads(s, t, r, owner, now, audited, newId) && r.Execute?
    requires MayExecute(s.profiles, RecordOf(s.vault, owner).items, r, now)
    ensures var n, data, pending :=
      Advance(s, ReadDone(t, true, now, audited, newId)), RecordOf(s.vault, owner), s.ledger.pending;
      var needs := NeedsApproval(s.profiles, data.items, r.action);
      (needs ==> IsApproved(pending, r.approvalId, owner, r.action)) ==>
        && n.ledger.pending
           == (if needs then pending[r.approvalId.value := pending[r.approvalId.value].(stage := A.Dispatched)]
               else pending)
        && n.ledger.history == s.ledger.history
           + (if audited
               then [A.Sent(t, owner, r.action, data.items[r.action.id], now, if needs then r.approvalId else None)]
              else [])
        && (audited ==> n.frames == s.frames[t := Calling(data, r.action, r.approvalId)] && n.lock == s.lock)
        && (!audited ==> Ended(s, n, t))
  {
  }

  /** An approval is asked for exactly when one is needed, none is named, and the
      owner has fewer than 16 live ones: under the new name, for two minutes. */
  lemma AsksExactlyWhen(s: State, t: Ticket, r: Request, owner: Owner, now: int, audited: bool, newId: ApprovalId)
    requires Reads(s, t, r, owner, now, audited, newId) && r.Execute?
    ensures var n, data, pending :=
      Advance(s, ReadDone(t, true, now, audited, newId)), RecordOf(s.vault, owner), s.ledger.pending;
      var needs := NeedsApproval(s.profiles, data.items, r.action);
      && (newId !in pending ==>
            (newId in n.ledger.pending <==>
               && MayExecute(s.profiles, data.items, r, now)
               && needs && r.approvalId.None? && |Own(pending, owner)| < 16))
      && (newId !in pending && newId in n.ledger.pending ==>
            && n.ledger.pending == pending[newId := A.Approval(owner, r.action, A.Pending, now + 120_000)]
            && n.ledger.history == s.ledger.history
               + [A.Requested(newId, owner, r.action, GrantOf(data.items[r.action.id]), now + 120_000)]
            && Ended(s, n, t))
  {
    var data := RecordOf(s.vault, owner);
    assert MayExecute(s.profiles, data.items, r, now) <==> ExecuteAccepted(s.profiles, data, r, now);
    assert A.LiveOf(s.ledger, owner) == Own(s.ledger.pending, owner);
  }

  /** Otherwise the call ends and nothing has changed. */
  lemma RefusedChangesNothing(s: State, t: Ticket, r: Request, owner: Owner, now: int, audited: bool, newId: ApprovalId)
    requires Reads(s, t, r, owner, now, audited, newId) && r.Execute?
    requires var items := RecordOf(s.vault, owner).items;
      || !MayExecute(s.profiles, items, r, now)
      || (&& NeedsApproval(s.profiles, items, r.action) && !IsApproved(s.ledger.pending, r.approvalId, owner, r.action)
          && (r.approvalId.Some? || |Own(s.ledger.pending, owner)| >= 16))
    ensures var n := Advance(s, ReadDone(t, true, now, audited, newId)); Ended(s, n, t) && n.ledger == s.ledger
  {
    var data := RecordOf(s.vault, owner);
    assert MayExecute(s.profiles, data.items, r, now) <==> ExecuteAccepted(s.profiles, data, r, now);
    assert A.LiveOf(s.ledger, owner) == Own(s.ledger.pending, owner);
  }

  // ---- After the provider's answer ------------------------------------------------------------

  /** A failed call leaves its approval uncertain; one that worked goes on to record
      the time of use, nothing else. */
  lemma CallEnds(s: State, t: Ticket, ok: bool, now: int)
    requires Enabled(s, CallDone(t, ok, now)) && s.frames[t].action.id in s.frames[t].record.items
    ensures var n, f := Advance(s, CallDone(t, ok, now)), s.frames[t];
      && n.ledger.history == s.ledger.history && n.vault == s.vault
      && (ok ==> && n.ledger == s.ledger && n.lock == s.lock && t in n.frames && n.frames[t].Recording?
                 && n.frames[t].record.version == f.record.version
                 && n.frames[t].record.items
                    == f.record.items[f.action.id := f.record.items[f.action.id].(lastUsedAt := Some(now))])
      && (!ok ==> Ended(s, n, t) && n.ledger.pending == Staged(s.ledger.pending, f.approvalId, A.Uncertain))
  {
  }

  function Staged(pending: Pendings, a: Option<ApprovalId>, stage: A.Stage): Pendings {
    map x | x in pending :: if a == Some(x) then pending[x].(stage := stage) else pending[x]
  }

  /** It is complete exactly when its use was recorded and audited. */
  lemma RecordEnds(s: State, t: Ticket, ok: bool, audited: bool)
    requires Enabled(s, RecordDone(t, ok, audited))
    ensures var n, f := Advance(s, RecordDone(t, ok, audited)), s.frames[t];
      && n.frames == s.frames - {t} && t !in n.lock.calls && n.ledger.history == s.ledger.history
      && n.ledger.pending == Staged(s.ledger.pending, f.approvalId, if ok && audited then A.Complete else A.Uncertain)
      && (ok ==> RecordOf(n.vault, s.lock.calls[t].owner).items == f.record.items)
      && (!ok ==> n.vault == s.vault)
  {
  }

  // ---- Arrival -----------------------------------------------------------------------------------

  /** Exactly the expired approvals go when a call arrives. */
  lemma ArrivalPrunes(s: State, owner: Owner, request: Request, now: int)
    ensures var n := Advance(s, Enter(owner, request, now));
      && n.ledger.history == s.ledger.history && n.vault == s.vault
      && Unexpired(s.ledger.pending, n.ledger.pending, now)
  {
    PrunedAreUnexpired(s.ledger, now);
    assert Advance(s, Enter(owner, request, now)).ledger == A.Pruned(s.ledger, now);
  }

  ghost predicate Unexpired(before: Pendings, after: Pendings, now: int) {
    forall a :: && (a in after <==> a in before && before[a].expiresAt > now)
                && (a in after ==> after[a] == before[a])
  }

  lemma PrunedAreUnexpired(l: A.Ledger, now: int)
    ensures Unexpired(l.pending, A.Pruned(l, now).pending, now)
  {
  }

  /** The calls counted in an owner's minute, this one included. */
  function CountedBefore(usage: map<Owner, U.Window>, owner: Owner, now: int): (int, int) {
    if owner in usage && now < usage[owner].start + 60_000 then (usage[owner].all, usage[owner].execute) else (0, 0)
  }

  /** A call is admitted exactly while its owner's minute has room for 120 calls and
      20 executes, the owner has fewer than four calls and the broker fewer than 64;
      it then waits its turn. */
  lemma AdmittedExactlyWhen(s: State, owner: Owner, request: Request, now: int)
    requires s.lock.issued !in s.frames
    ensures var n, before := Advance(s, Enter(owner, request, now)), CountedBefore(s.usage, owner, now);
      && (s.lock.issued in n.frames <==>
            && before.0 < 120 && (request.Execute? ==> before.1 < 20) && before.1 <= 20
            && (owner in s.lock.queued ==> s.lock.queued[owner] < 4) && s.lock.inflight < 64)
      && (s.lock.issued in n.frames ==>
            && n.frames == s.frames[s.lock.issued := Waiting(request)]
            && n.lock.issued == s.lock.issued + 1)
      && (s.lock.issued !in n.frames ==> n.frames == s.frames && n.lock == s.lock)
  {
    ChargedExactlyWhen(s.usage, owner, now, request.Execute?);
    EnteredExactlyWhen(s, owner, request, now);
  }

  lemma ChargedExactlyWhen(usage: map<Owner, U.Window>, owner: Owner, now: int, execute: bool)
    ensures var before := CountedBefore(usage, owner, now);
      U.Admitted(usage, U.Arrival(owner, now, execute)) <==>
        before.0 < 120 && (execute ==> before.1 < 20) && before.1 <= 20
  {
  }

  lemma EnteredExactlyWhen(s: State, owner: Owner, request: Request, now: int)
    requires s.lock.issued !in s.frames
    ensures var n := EnterStep(s, owner, request, now);
      var ok := U.Admitted(s.usage, U.Arrival(owner, now, request.Execute?));
      && (s.lock.issued in n.frames <==>
            ok && (owner in s.lock.queued ==> s.lock.queued[owner] < 4) && s.lock.inflight < 64)
      && (s.lock.issued in n.frames ==>
            && n.frames == s.frames[s.lock.issued := Waiting(request)]
            && n.lock.issued == s.lock.issued + 1)
      && (s.lock.issued !in n.frames ==> n.frames == s.frames && n.lock == s.lock)
  {
  }
}
