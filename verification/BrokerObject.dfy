/** The broker object: its methods are the stretches of `handle` and `lock`
    between two suspensions, and each one makes exactly one step of the machine. */
module BrokerObject {
  import opened Outcomes
  import opened CredentialVault
  import B = CredentialBroker
  import A = ApprovalLedger
  import L = CallLock
  import U = UsageWindow

  class Broker {
    const profiles: map<string, B.Profile>
    var pending: map<A.ApprovalId, A.Approval>
    var locks: map<Owner, L.Ticket>
    var queued: map<Owner, nat>
    var inflight: int
    var usage: map<Owner, U.Window>

    // The suspended calls and the promises they wait for.
    var calls: map<L.Ticket, L.Call>
    var issued: L.Ticket
    var frames: map<L.Ticket, B.Frame>

    // The vault service.
    var vault: Vault

    ghost var begun: seq<(L.Ticket, Owner)>
    ghost var history: seq<A.Fact>
    ghost var requestedAt: map<A.ApprovalId, nat>
    ghost var grantedAt: map<A.ApprovalId, nat>

    ghost function Lock(): L.Lock
      reads this
    {
      L.Lock(queued, inflight, locks, calls, issued, begun)
    }

    ghost function Ledger(): A.Ledger
      reads this
    {
      A.Ledger(pending, history, requestedAt, grantedAt)
    }

    ghost function View(): B.State
      reads this
    {
      B.State(profiles, Lock(), usage, Ledger(), vault, frames)
    }

    constructor (profiles: map<string, B.Profile>, vault: Vault)
      ensures View() == B.Start(profiles, vault)
    {
      this.profiles, this.vault := profiles, vault;
      pending, locks, queued, inflight, usage := map[], map[], map[], 0, map[];
      calls, issued, frames := map[], 0, map[];
      begun, history, requestedAt, grantedAt := [], [], map[], map[];
    }

    method Prune(now: int)
      modifies this`pending
      ensures Ledger() == A.Pruned(old(Ledger()), now)
    {
      ghost var before := pending;
      var keys := pending.Keys;
      while keys != {}
        invariant keys <= before.Keys
        invariant pending == map a | a in before && (a in keys || before[a].expiresAt > now) :: before[a]
        decreases keys
      {
        var id :| id in keys;
        if pending[id].expiresAt <= now {
          pending := pending - {id};
        }
        keys := keys - {id};
      }
    }

    method Sweep(now: int)
      modifies this`usage
      ensures usage == U.Swept(old(usage), now)
    {
      ghost var before := usage;
      var keys := usage.Keys;
      while keys != {}
        invariant keys <= before.Keys
        invariant usage == map o | o in before && (o in keys || !U.Expired(before[o], now)) :: before[o]
        decreases keys
      {
        var key :| key in keys;
        if usage[key].start + U.SPAN <= now {
          usage := usage - {key};
        }
        keys := keys - {key};
      }
    }

    method Purge(owner: Owner, id: Id)
      modifies this`pending
      ensures Ledger() == A.Purged(old(Ledger()), owner, id)
    {
      ghost var before := pending;
      var keys := pending.Keys;
      while keys != {}
        invariant keys <= before.Keys
        invariant pending ==
          map a | a in before && (a in keys || before[a].owner != owner || before[a].action.id != id) :: before[a]
        decreases keys
      {
        var key :| key in keys;
        if pending[key].owner == owner && pending[key].action.id == id {
          pending := pending - {key};
        }
        keys := keys - {key};
      }
    }

    /** The rate window: a call beyond it gets status 429. */
    method Charge(owner: Owner, execute: bool, now: int) returns (admitted: bool)
      modifies this`usage
      ensures usage == U.NextUsage(old(usage), U.Arrival(owner, now, execute))
      ensures admitted == U.Admitted(old(usage), U.Arrival(owner, now, execute))
    {
      Sweep(now);
      var window := if owner in usage then usage[owner] else U.Window(now, 0, 0);
      window := window.(all := window.all + 1);
      if execute {
        window := window.(execute := window.execute + 1);
      }
      usage := usage[owner := window];
      admitted := window.all <= U.ALL_LIMIT && window.execute <= U.EXECUTE_LIMIT;
    }

    /** `lock` up to `await previous`. */
    method Admit(owner: Owner, request: B.Request) returns (refused: bool)
      modifies this`queued, this`inflight, this`locks, this`calls, this`frames, this`issued
      ensures refused == L.Refused(old(Lock()), owner)
      ensures refused ==> Lock() == old(Lock()) && frames == old(frames)
      ensures !refused ==>
        Lock() == L.AdmitStep(old(Lock()), owner) && frames == old(frames)[old(issued) := B.Waiting(request)]
    {
      var count := if owner in queued then queued[owner] else 0;
      if count >= L.OWNER_LIMIT || inflight >= L.TOTAL_LIMIT {
        return true;
      }
      queued := queued[owner := count + 1];
      inflight := inflight + 1;
      var previous := if owner in locks then Some(locks[owner]) else None;
      locks := locks[owner := issued];
      calls := calls[issued := L.Call(owner, previous, false)];
      frames := frames[issued := B.Waiting(request)];
      issued := issued + 1;
      refused := false;
    }

    /** Everything up to the wait for the owner's lock. */
    method Enter(owner: Owner, request: B.Request, now: int) returns (refused: bool)
      modifies this
      ensures View() == B.EnterStep(old(View()), owner, request, now)
      ensures refused <==>
                !U.Admitted(old(usage), U.Arrival(owner, now, request.Execute?)) || L.Refused(old(Lock()), owner)
    {
      Prune(now);
      var admitted := Charge(owner, request.Execute?, now);
      if !admitted {
        return true;
      }
      refused := Admit(owner, request);
    }

    /** The `finally` block of `lock`. */
    method Release(t: L.Ticket)
      requires t in calls
      modifies this`calls, this`frames, this`inflight, this`queued, this`locks
      ensures View() == B.Finished(old(View()), t)
    {
      Settle(t);
      frames := frames - {t};
    }

    method Settle(t: L.Ticket)
      requires t in calls
      modifies this`calls, this`inflight, this`queued, this`locks
      ensures Lock() == L.SettleStep(old(Lock()), t)
    {
      var owner := calls[t].owner;
      inflight := inflight - 1;
      var before: int := if owner in queued then queued[owner] else 0;
      var count := before - 1;
      queued := if count > 0 then queued[owner := count] else queued - {owner};
      if owner in locks && locks[owner] == t {
        locks := locks - {owner};
      }
      calls := calls - {t};
    }

    /** `await previous` resumes. */
    method Resume(t: L.Ticket)
      requires B.Enabled(View(), B.Resume(t))
      modifies this
      ensures View() == B.ResumeStep(old(View()), t)
    {
      var request := frames[t].request;
      begun := begun + [(t, calls[t].owner)];
      calls := calls[t := calls[t].(running := true)];
      frames := frames[t := B.Reading(request)];
      if request.NoVault? {
        Release(t);
      }
    }

    method Save(t: L.Ticket, data: Record, request: B.Request, now: int, audited: bool)
      requires t in calls && request.Save?
      modifies this
      ensures View() == B.SaveStep(old(View()), t, data, request, now, audited)
    {
      if B.SaveAccepted(profiles, data, request, now) && audited {
        var c := request.credential.(disabled := false, updatedAt := now, lastUsedAt := None);
        frames := frames[t := B.Writing(Record(data.items[request.id := c], data.version), request.id)];
      } else {
        Release(t);
      }
    }

    method Revoke(t: L.Ticket, data: Record, request: B.Request, audited: bool)
      requires t in calls && (request.Disable? || request.Delete?)
      modifies this
      ensures View() == B.RevokeStep(old(View()), t, data, request, audited)
    {
      if request.id !in data.items || !audited {
        Release(t);
        return;
      }
      var items := data.items;
      if request.Delete? {
        items := items - {request.id};
      } else {
        items := items[request.id := items[request.id].(disabled := true)];
      }
      frames := frames[t := B.Writing(Record(items, data.version), request.id)];
    }

    method Approve(t: L.Ticket, data: Record, id: A.ApprovalId, now: int, audited: bool)
      requires t in calls
      modifies this
      ensures View() == B.ApproveStep(old(View()), t, data, id, now, audited)
    {
      var owner := calls[t].owner;
      if id in pending && pending[id].owner == owner && pending[id].stage == A.Pending
         && Usable(data, pending[id].action.id, pending[id].action.workspace, now) && audited {
        grantedAt := grantedAt[id := |history|];
        history := history + [A.Granted(id, owner)];
        pending := pending[id := pending[id].(stage := A.Approved)];
      }
      Release(t);
    }

    /** A gated operation without an approval asks for one. */
    method Ask(t: L.Ticket, data: Record, action: A.Action, now: int, newId: A.ApprovalId)
      requires t in calls && action.id in data.items
      modifies this
      ensures View() == B.AskStep(old(View()), t, data, action, now, newId)
    {
      var owner := calls[t].owner;
      var mine := set a | a in pending && pending[a].owner == owner;
      assert mine == A.LiveOf(Ledger(), owner);
      if |mine| < A.PENDING_LIMIT {
        requestedAt := requestedAt[newId := |history|];
        history := history + [A.Requested(newId, owner, action, GrantOf(data.items[action.id]), now + A.APPROVAL_LIFE)];
        pending := pending[newId := A.Approval(owner, action, A.Pending, now + A.APPROVAL_LIFE)];
      }
      Release(t);
    }

    /** The audit record, then the call that suspends on the provider. */
    method Send(t: L.Ticket, data: Record, request: B.Request, consumed: Option<A.ApprovalId>, now: int, audited: bool)
      requires t in calls && request.Execute? && request.action.id in data.items
      modifies this
      ensures View() == B.SendStep(old(View()), t, data, request, consumed, now, audited)
    {
      if !audited {
        Release(t);
        return;
      }
      history := history + [B.SentFact(View(), t, data, request, consumed, now)];
      frames := frames[t := B.Calling(data, request.action, request.approvalId)];
    }

    method Execute(t: L.Ticket, data: Record, request: B.Request, now: int, audited: bool, newId: A.ApprovalId)
      requires t in calls && request.Execute?
      modifies this
      ensures View() == B.ExecuteStep(old(View()), t, data, request, now, audited, newId)
    {
      if !B.ExecuteAccepted(profiles, data, request, now) {
        Release(t);
        return;
      }
      var op := profiles[data.items[request.action.id].profile].operations[request.action.operation];
      if op.isGet && !op.requiresApproval {
        Send(t, data, request, None, now, audited);
      } else if request.approvalId.None? {
        Ask(t, data, request.action, now, newId);
      } else {
        var prior := request.approvalId.value;
        if prior !in pending || pending[prior].owner != calls[t].owner || pending[prior].action != request.action
           || pending[prior].stage != A.Approved {
          Release(t);
        } else {
          Mark(Some(prior), A.Dispatched);
          Send(t, data, request, Some(prior), now, audited);
        }
      }
    }

    /** `await vault.read` returns, or throws when `ok` is false. */
    method ReadDone(t: L.Ticket, ok: bool, now: int, audited: bool, newId: A.ApprovalId)
      requires B.Enabled(View(), B.ReadDone(t, ok, now, audited, newId))
      modifies this
      ensures View() == B.ReadStep(old(View()), t, ok, now, audited, newId)
    {
      var request := frames[t].request;
      var data := RecordOf(vault, calls[t].owner);
      if !ok {
        Release(t);
      } else if request.Save? {
        Save(t, data, request, now, audited);
      } else if request.Disable? || request.Delete? {
        Revoke(t, data, request, audited);
      } else if request.Approve? {
        Approve(t, data, request.approval, now, audited);
      } else if request.Execute? {
        Execute(t, data, request, now, audited, newId);
      } else {
        Release(t);
      }
    }

    method Mark(approvalId: Option<A.ApprovalId>, stage: A.Stage)
      modifies this`pending
      ensures Ledger() == A.Marked(old(Ledger()), approvalId, stage)
    {
      if approvalId.Some? && approvalId.value in pending {
        pending := pending[approvalId.value := pending[approvalId.value].(stage := stage)];
      }
    }

    /** `await vault.write` of a saved, disabled or deleted credential. */
    method WriteDone(t: L.Ticket, ok: bool)
      requires B.Enabled(View(), B.WriteDone(t, ok))
      modifies this
      ensures View() == B.WriteStep(old(View()), t, ok)
    {
      if ok {
        var record, owner := frames[t].record, calls[t].owner;
        vault := vault[owner := record.(version := record.version + 1)];
        Purge(owner, frames[t].id);
      }
      Release(t);
    }

    /** `await dispatch` returns or throws. */
    method CallDone(t: L.Ticket, ok: bool, now: int)
      requires B.Enabled(View(), B.CallDone(t, ok, now))
      modifies this
      ensures View() == B.CallStep(old(View()), t, ok, now)
    {
      var f := frames[t];
      if ok && f.action.id in f.record.items {
        var used := f.record.items[f.action.id].(lastUsedAt := Some(now));
        var record := f.record.(items := f.record.items[f.action.id := used]);
        frames := frames[t := B.Recording(record, f.action, f.approvalId)];
      } else {
        Mark(f.approvalId, A.Uncertain);
        Release(t);
      }
    }

    /** `await vault.write` after the provider call, and the closing audit. */
    method RecordDone(t: L.Ticket, ok: bool, audited: bool)
      requires B.Enabled(View(), B.RecordDone(t, ok, audited))
      modifies this
      ensures View() == B.RecordStep(old(View()), t, ok, audited)
    {
      var f := frames[t];
      if ok {
        vault := vault[calls[t].owner := f.record.(version := f.record.version + 1)];
      }
      Mark(f.approvalId, if ok && audited then A.Complete else A.Uncertain);
      Release(t);
    }
  }
}
