/** What the broker's answers do, told from the requests and from what the vault and
    the approvals hold, in every run. */
module BrokerPromises {
  import opened Outcomes
  import opened CredentialVault
  import opened CredentialBroker
  import opened BrokerSafety
  import A = ApprovalLedger
  import L = CallLock

  type Items = map<Id, Credential>
  type Requests = map<Ticket, Request>

  // ---- What each request is to do to the vault ----------------------------------------

  ghost predicate OthersStay(before: Items, after: Items, id: Id) {
    forall k | k != id :: (k in before <==> k in after) && (k in before ==> after[k] == before[k])
  }

  /** The stored credential is what was saved, enabled and never used. */
  predicate IsSaved(stored: Credential, given: Credential) {
    && stored.profile == given.profile && stored.workspace == given.workspace && stored.operations == given.operations
    && stored.scopes == given.scopes && stored.secret == given.secret && stored.expiresAt == given.expiresAt
    && !stored.disabled && stored.lastUsedAt.None?
  }

  /** A disabled credential keeps all but its flag. */
  predicate IsDisabled(stored: Credential, before: Credential) {
    && stored.disabled
    && stored.profile == before.profile && stored.workspace == before.workspace
    && stored.operations == before.operations && stored.scopes == before.scopes && stored.secret == before.secret
    && stored.expiresAt == before.expiresAt && stored.updatedAt == before.updatedAt
    && stored.lastUsedAt == before.lastUsedAt
  }

  ghost predicate Does(r: Request, before: Items, after: Items) {
    match r
    case Save(id, c, _) => id in after && IsSaved(after[id], c) && OthersStay(before, after, id)
    case Disable(id) =>
      id in before && id in after && IsDisabled(after[id], before[id]) && OthersStay(before, after, id)
    case Delete(id) => id in before && id !in after && OthersStay(before, after, id)
    case _ => false
  }

  predicate Changes(r: Request, id: Id) { (r.Save? || r.Disable? || r.Delete?) && r.id == id }

  // ---- What a suspended call is about ----------------------------------------------------

  /** The frame belongs to the request its call entered with. */
  ghost predicate Knows(f: Frame, r: Request, data: Record) {
    match f
    case Waiting(request) => request == r
    case Reading(request) => request == r
    case Writing(record, id) => Changes(r, id) && Does(r, data.items, record.items)
    case Calling(_, action, approvalId) => r.Execute? && r.action == action && r.approvalId == approvalId
    case Recording(_, action, approvalId) => r.Execute? && r.action == action && r.approvalId == approvalId
  }

  ghost predicate AllKnow(frames: Frames, calls: Calls, vault: Vault, requests: Requests) {
    forall t | t in frames && t in calls ::
      t in requests && Knows(frames[t], requests[t], RecordOf(vault, calls[t].owner))
  }

  /** The requests of all calls admitted so far. */
  function Admitted(s: State, e: Event, n: State, requests: Requests): Requests {
    if e.Enter? && n.lock.issued > s.lock.issued then requests[s.lock.issued := e.request] else requests
  }

  ghost predicate Tracked(s: State, requests: Requests) {
    && AllKnow(s.frames, s.lock.calls, s.vault, requests)
    && forall t | t in requests :: t < s.lock.issued
  }

  // ---- Each step keeps it -------------------------------------------------------------------

  lemma FinishedKnows(lock: L.Lock, frames: Frames, vault: Vault, requests: Requests, t: Ticket)
    requires AllKnow(frames, lock.calls, vault, requests) && t in lock.calls
    ensures AllKnow(frames - {t}, L.SettleStep(lock, t).calls, vault, requests)
  {
  }

  lemma SuspendedKnows(frames: Frames, calls: Calls, vault: Vault, requests: Requests, t: Ticket, f: Frame)
    requires AllKnow(frames, calls, vault, requests) && t in calls && t in requests
    requires Knows(f, requests[t], RecordOf(vault, calls[t].owner))
    ensures AllKnow(frames[t := f], calls, vault, requests)
  {
  }

  /** A write by the owner's running call: its other calls are still waiting. */
  lemma StoredKnows(lock: L.Lock, frames: Frames, vault: Vault, requests: Requests, t: Ticket, record: Record)
    requires AllKnow(frames, lock.calls, vault, requests) && WorkInv(lock, frames, vault) && L.CanSettle(lock, t)
    ensures AllKnow(frames - {t}, L.SettleStep(lock, t).calls, Stored(vault, lock.calls[t].owner, record), requests)
  {
    L.RunningIsFirst(lock);
    StoredKnowsOthers(frames, lock.calls, vault, requests, t, lock.calls[t].owner, record);
  }

  lemma StoredKnowsOthers(frames: Frames, calls: Calls, vault: Vault, requests: Requests, t: Ticket, owner: Owner,
                          record: Record)
    requires AllKnow(frames, calls, vault, requests) && Fit(frames, calls)
    requires forall u | u in calls && u != t && calls[u].running :: calls[u].owner != owner
    ensures AllKnow(frames - {t}, calls - {t}, Stored(vault, owner, record), requests)
  {
  }

  lemma EnterTracks(s: State, owner: Owner, request: Request, now: int, requests: Requests)
    requires Tracked(s, requests) && s.lock.issued !in s.lock.calls
    ensures var n := EnterStep(s, owner, request, now);
      Tracked(n, Admitted(s, Enter(owner, request, now), n, requests))
  {
    var n := EnterStep(s, owner, request, now);
    if n.lock != s.lock {
      AdmittedKnows(s.lock, s.frames, s.vault, requests, owner, request);
    }
  }

  lemma AdmittedKnows(lock: L.Lock, frames: Frames, vault: Vault, requests: Requests, owner: Owner, request: Request)
    requires AllKnow(frames, lock.calls, vault, requests) && lock.issued !in lock.calls
    ensures AllKnow(frames[lock.issued := Waiting(request)], L.AdmitStep(lock, owner).calls, vault,
                    requests[lock.issued := request])
  {
  }

  lemma ResumeTracks(s: State, t: Ticket, requests: Requests)
    requires Tracked(s, requests) && Enabled(s, Resume(t))
    ensures Tracked(ResumeStep(s, t), requests)
  {
    var request := s.frames[t].request;
    assert Knows(s.frames[t], requests[t], RecordOf(s.vault, s.lock.calls[t].owner));
    BegunKnows(s.lock, s.frames, s.vault, requests, t, request);
    FinishedKnows(L.BeginStep(s.lock, t), s.frames[t := Reading(request)], s.vault, requests, t);
  }

  lemma BegunKnows(lock: L.Lock, frames: Frames, vault: Vault, requests: Requests, t: Ticket, request: Request)
    requires AllKnow(frames, lock.calls, vault, requests) && t in lock.calls && t in requests && requests[t] == request
    ensures AllKnow(frames[t := Reading(request)], L.BeginStep(lock, t).calls, vault, requests)
  {
  }

  /** The state's tracked parts are among these two. */
  lemma TrackedFrom(s: State, n: State, requests: Requests, calls: Calls, frames: Frames, vault: Vault)
    requires Tracked(s, requests) && AllKnow(frames, calls, vault, requests)
    requires n.frames == frames && n.lock.calls == calls && n.vault == vault && n.lock.issued == s.lock.issued
    ensures Tracked(n, requests)
  {
  }

  lemma FinishedTracks(s: State, n: State, t: Ticket, requests: Requests)
    requires Tracked(s, requests) && t in s.lock.calls
    requires n.lock == L.SettleStep(s.lock, t) && n.frames == s.frames - {t} && n.vault == s.vault
    ensures Tracked(n, requests)
  {
    FinishedKnows(s.lock, s.frames, s.vault, requests, t);
  }

  lemma SuspendedTracks(s: State, n: State, t: Ticket, f: Frame, requests: Requests)
    requires Tracked(s, requests) && t in s.lock.calls && t in requests
    requires Knows(f, requests[t], RecordOf(s.vault, s.lock.calls[t].owner))
    requires n.lock == s.lock && n.frames == s.frames[t := f] && n.vault == s.vault
    ensures Tracked(n, requests)
  {
    SuspendedKnows(s.frames, s.lock.calls, s.vault, requests, t, f);
  }

  lemma SaveTracks(s: State, t: Ticket, request: Request, now: int, audited: bool, requests: Requests)
    requires Tracked(s, requests) && t in s.lock.calls && t in requests && requests[t] == request && request.Save?
    ensures Tracked(SaveStep(s, t, RecordOf(s.vault, s.lock.calls[t].owner), request, now, audited), requests)
  {
    var data := RecordOf(s.vault, s.lock.calls[t].owner);
    var n := SaveStep(s, t, data, request, now, audited);
    if n.lock == s.lock && n.frames != s.frames - {t} {
      var c := request.credential.(disabled := false, updatedAt := now, lastUsedAt := None);
      SuspendedTracks(s, n, t, Writing(Record(data.items[request.id := c], data.version), request.id), requests);
    } else {
      FinishedTracks(s, n, t, requests);
    }
  }

  lemma RevokeTracks(s: State, t: Ticket, request: Request, audited: bool, requests: Requests)
    requires Tracked(s, requests) && t in s.lock.calls && t in requests && requests[t] == request
    requires request.Disable? || request.Delete?
    ensures Tracked(RevokeStep(s, t, RecordOf(s.vault, s.lock.calls[t].owner), request, audited), requests)
  {
    var data := RecordOf(s.vault, s.lock.calls[t].owner);
    var n := RevokeStep(s, t, data, request, audited);
    if request.id in data.items && audited {
      var f := n.frames[t];
      RevokeDoes(request, data.items, f.record.items);
      SuspendedTracks(s, n, t, f, requests);
    } else {
      FinishedTracks(s, n, t, requests);
    }
  }

  lemma RevokeDoes(request: Request, before: Items, after: Items)
    requires (request.Disable? || request.Delete?) && request.id in before
    requires after == if request.Delete? then before - {request.id}
                      else before[request.id := before[request.id].(disabled := true)]
    ensures Does(request, before, after)
  {
  }

  /** An execute ends, or suspends on the provider. */
  lemma ExecuteEndsOrCalls(s: State, t: Ticket, data: Record, request: Request, now: int, audited: bool,
                           newId: ApprovalId)
    requires t in s.lock.calls && request.Execute?
    ensures var n := ExecuteStep(s, t, data, request, now, audited, newId);
      && n.vault == s.vault
      && (|| (n.lock == L.SettleStep(s.lock, t) && n.frames == s.frames - {t})
          || (n.lock == s.lock && n.frames == s.frames[t := Calling(data, request.action, request.approvalId)]))
  {
  }

  lemma ExecuteTracks(s: State, t: Ticket, data: Record, request: Request, n: State, requests: Requests)
    requires Tracked(s, requests) && t in s.lock.calls && t in requests && requests[t] == request && request.Execute?
    requires n.vault == s.vault
    requires || (n.lock == L.SettleStep(s.lock, t) && n.frames == s.frames - {t})
             || (n.lock == s.lock && n.frames == s.frames[t := Calling(data, request.action, request.approvalId)])
    ensures Tracked(n, requests)
  {
    if n.lock == L.SettleStep(s.lock, t) && n.frames == s.frames - {t} {
      FinishedTracks(s, n, t, requests);
    } else {
      SuspendedTracks(s, n, t, Calling(data, request.action, request.approvalId), requests);
    }
  }

  lemma ReadTracks(s: State, t: Ticket, ok: bool, now: int, audited: bool, newId: ApprovalId, requests: Requests)
    requires Tracked(s, requests) && Enabled(s, ReadDone(t, ok, now, audited, newId))
    ensures Tracked(ReadStep(s, t, ok, now, audited, newId), requests)
  {
    var request, data := s.frames[t].request, RecordOf(s.vault, s.lock.calls[t].owner);
    assert Knows(s.frames[t], requests[t], data);
    if ok && request.Save? {
      SaveTracks(s, t, request, now, audited, requests);
    } else if ok && (request.Disable? || request.Delete?) {
      RevokeTracks(s, t, request, audited, requests);
    } else if ok && request.Execute? {
      ExecuteEndsOrCalls(s, t, data, request, now, audited, newId);
      ExecuteTracks(s, t, data, request, ExecuteStep(s, t, data, request, now, audited, newId), requests);
    } else {
      FinishedTracks(s, ReadStep(s, t, ok, now, audited, newId), t, requests);
    }
  }

  lemma WriteTracks(s: State, t: Ticket, ok: bool, requests: Requests)
    requires Inv(s) && Tracked(s, requests) && Enabled(s, WriteDone(t, ok))
    ensures Tracked(WriteStep(s, t, ok), requests)
  {
    var n, f := WriteStep(s, t, ok), s.frames[t];
    if ok {
      StoredKnows(s.lock, s.frames, s.vault, requests, t, f.record);
      TrackedFrom(s, n, requests, L.SettleStep(s.lock, t).calls, s.frames - {t},
                  Stored(s.vault, s.lock.calls[t].owner, f.record));
    } else {
      FinishedTracks(s, n, t, requests);
    }
  }

  lemma CallTracks(s: State, t: Ticket, ok: bool, now: int, requests: Requests)
    requires Tracked(s, requests) && Enabled(s, CallDone(t, ok, now))
    ensures Tracked(CallStep(s, t, ok, now), requests)
  {
    var n, f := CallStep(s, t, ok, now), s.frames[t];
    assert Knows(f, requests[t], RecordOf(s.vault, s.lock.calls[t].owner));
    if ok && f.action.id in f.record.items {
      SuspendedTracks(s, n, t, n.frames[t], requests);
    } else {
      FinishedTracks(s, n, t, requests);
    }
  }

  lemma RecordTracks(s: State, t: Ticket, ok: bool, audited: bool, requests: Requests)
    requires Inv(s) && Tracked(s, requests) && Enabled(s, RecordDone(t, ok, audited))
    ensures Tracked(RecordStep(s, t, ok, audited), requests)
  {
    var n, f := RecordStep(s, t, ok, audited), s.frames[t];
    if ok {
      StoredKnows(s.lock, s.frames, s.vault, requests, t, f.record);
      TrackedFrom(s, n, requests, L.SettleStep(s.lock, t).calls, s.frames - {t},
                  Stored(s.vault, s.lock.calls[t].owner, f.record));
    } else {
      FinishedTracks(s, n, t, requests);
    }
  }

  lemma {:induction false} AdvanceTracks(s: State, e: Event, requests: Requests)
    requires Inv(s) && Tracked(s, requests)
    ensures Tracked(Advance(s, e), Admitted(s, e, Advance(s, e), requests))
  {
    if Enabled(s, e) {
      match e
      case Enter(owner, request, now) => EnterTracks(s, owner, request, now, requests);
      case Resume(t) => ResumeTracks(s, t, requests);
      case ReadDone(t, ok, now, audited, newId) => ReadTracks(s, t, ok, now, audited, newId, requests);
      case WriteDone(t, ok) => WriteTracks(s, t, ok, requests);
      case CallDone(t, ok, now) => CallTracks(s, t, ok, now, requests);
      case RecordDone(t, ok, audited) => RecordTracks(s, t, ok, audited, requests);
    }
  }

  // ---- Whole runs ------------------------------------------------------------------------------

  ghost predicate IsBrokerRun(profiles: map<string, Profile>, vault: Vault, states: seq<State>, events: seq<Event>) {
    && |states| == |events| + 1 && states[0] == Start(profiles, vault)
    && forall i | 0 <= i < |events| :: Follows(states, events, i)
  }

  ghost predicate Follows(states: seq<State>, events: seq<Event>, i: nat)
    requires i < |events| && i + 1 < |states|
  {
    states[i + 1] == Advance(states[i], events[i])
  }

  /** The requests of all calls admitted before position `i`. */
  function RequestsAt(states: seq<State>, events: seq<Event>, i: nat): Requests
    requires i <= |events| && i < |states|
  {
    if i == 0 then map[] else Admitted(states[i - 1], events[i - 1], states[i], RequestsAt(states, events, i - 1))
  }

  ghost predicate Sound(states: seq<State>, events: seq<Event>, i: nat)
    requires i <= |events| && i < |states|
  {
    Inv(states[i]) && Tracked(states[i], RequestsAt(states, events, i))
  }

  lemma {:induction false} RunIsSound(profiles: map<string, Profile>, vault: Vault, states: seq<State>,
                                      events: seq<Event>, i: nat)
    requires IsBrokerRun(profiles, vault, states, events) && i < |states|
    ensures Sound(states, events, i)
  {
    if i == 0 {
      RunStarts(profiles, vault, states, events);
    } else {
      RunIsSound(profiles, vault, states, events, i - 1);
      RunGoesOn(profiles, vault, states, events, i - 1);
    }
  }

  lemma RunTracks(profiles: map<string, Profile>, vault: Vault, states: seq<State>, events: seq<Event>, i: nat)
    requires IsBrokerRun(profiles, vault, states, events) && i < |states|
    ensures Inv(states[i]) && Tracked(states[i], RequestsAt(states, events, i))
  {
    RunIsSound(profiles, vault, states, events, i);
  }

  lemma RunStarts(profiles: map<string, Profile>, vault: Vault, states: seq<State>, events: seq<Event>)
    requires IsBrokerRun(profiles, vault, states, events)
    ensures Sound(states, events, 0)
  {
    L.EmptyInv();
    A.EmptyInv(vault);
  }

  lemma RunGoesOn(profiles: map<string, Profile>, vault: Vault, states: seq<State>, events: seq<Event>, i: nat)
    requires IsBrokerRun(profiles, vault, states, events) && i < |events| && Sound(states, events, i)
    ensures Sound(states, events, i + 1)
  {
    assert Follows(states, events, i);
    AdvanceKeepsInv(states[i], events[i]);
    AdvanceTracks(states[i], events[i], RequestsAt(states, events, i));
  }

  /** The call's write is acknowledged now, and it entered with this request for this
      owner. */
  ghost predicate Acknowledges(states: seq<State>, events: seq<Event>, i: nat, owner: Owner, r: Request)
    requires i < |events| && i < |states|
  {
    && events[i].WriteDone? && events[i].ok && Enabled(states[i], events[i])
    && events[i].ticket in states[i].lock.calls && states[i].lock.calls[events[i].ticket].owner == owner
    && events[i].ticket in RequestsAt(states, events, i) && RequestsAt(states, events, i)[events[i].ticket] == r
  }

  ghost predicate OthersRecordsStay(before: Vault, after: Vault, owner: Owner) {
    forall o | o != owner :: RecordOf(after, o) == RecordOf(before, o)
  }

  /** In every run an acknowledged write has done exactly what its call's request
      asks: saved the given credential enabled, set the flag, or removed the
      credential, and touched no other; and of the live approvals exactly those of
      that credential are gone. */
  lemma WritesDoAsAsked(profiles: map<string, Profile>, vault: Vault, states: seq<State>, events: seq<Event>, i: nat,
                        owner: Owner, r: Request)
    requires IsBrokerRun(profiles, vault, states, events) && i < |events| && Acknowledges(states, events, i, owner, r)
    ensures r.Save? || r.Disable? || r.Delete?
    ensures Does(r, RecordOf(states[i].vault, owner).items, RecordOf(states[i + 1].vault, owner).items)
    ensures RecordOf(states[i + 1].vault, owner).version == RecordOf(states[i].vault, owner).version + 1
    ensures OthersRecordsStay(states[i].vault, states[i + 1].vault, owner)
    ensures forall a :: a in states[i + 1].ledger.pending <==>
              && a in states[i].ledger.pending
              && !(states[i].ledger.pending[a].owner == owner && states[i].ledger.pending[a].action.id == r.id)
  {
    RunTracks(profiles, vault, states, events, i);
    assert Follows(states, events, i);
    WriteDoes(states[i], events[i].ticket, r, RequestsAt(states, events, i), states[i + 1]);
  }

  lemma WriteDoes(s: State, t: Ticket, r: Request, requests: Requests, n: State)
    requires Tracked(s, requests) && Enabled(s, WriteDone(t, true)) && t in requests && requests[t] == r
    requires n == WriteStep(s, t, true)
    ensures var owner := s.lock.calls[t].owner;
      && Changes(r, s.frames[t].id)
      && Does(r, RecordOf(s.vault, owner).items, RecordOf(n.vault, owner).items)
      && RecordOf(n.vault, owner).version == RecordOf(s.vault, owner).version + 1
      && OthersRecordsStay(s.vault, n.vault, owner)
      && forall a :: a in n.ledger.pending <==>
           a in s.ledger.pending && !(s.ledger.pending[a].owner == owner && s.ledger.pending[a].action.id == r.id)
  {
    assert Knows(s.frames[t], requests[t], RecordOf(s.vault, s.lock.calls[t].owner));
  }

  /** Nothing else changes what a credential is: without an acknowledged write every
      owner's credentials stay, but for the time of last use. */
  lemma OnlyWritesChange(profiles: map<string, Profile>, vault: Vault, states: seq<State>, events: seq<Event>, i: nat,
                         owner: Owner)
    requires IsBrokerRun(profiles, vault, states, events) && i < |events|
    requires !(events[i].WriteDone? && events[i].ok && Enabled(states[i], events[i])
               && states[i].lock.calls[events[i].ticket].owner == owner)
    ensures SameButUses(RecordOf(states[i].vault, owner).items, RecordOf(states[i + 1].vault, owner).items)
  {
    RunTracks(profiles, vault, states, events, i);
    assert Follows(states, events, i);
    var s, e := states[i], events[i];
    if Enabled(s, e) && e.RecordDone? {
      RecordUses(s, e.ticket, e.ok, e.audited, owner);
    } else if Enabled(s, e) && e.WriteDone? {
      WriteElsewhere(s, e.ticket, e.ok, owner);
    } else {
      VaultStays(s, e);
    }
  }

  lemma VaultStays(s: State, e: Event)
    requires !(Enabled(s, e) && (e.RecordDone? || e.WriteDone?))
    ensures Advance(s, e).vault == s.vault
  {
    if Enabled(s, e) && e.ReadDone? { ReadLeavesVault(s, e.ticket, e.ok, e.now, e.audited, e.newId); }
  }

  lemma ReadLeavesVault(s: State, t: Ticket, ok: bool, now: int, audited: bool, newId: ApprovalId)
    requires Enabled(s, ReadDone(t, ok, now, audited, newId))
    ensures ReadStep(s, t, ok, now, audited, newId).vault == s.vault
  {
    var request, data := s.frames[t].request, RecordOf(s.vault, s.lock.calls[t].owner);
    if request.Execute? { ExecuteEndsOrCalls(s, t, data, request, now, audited, newId); }
  }

  lemma WriteElsewhere(s: State, t: Ticket, ok: bool, owner: Owner)
    requires Enabled(s, WriteDone(t, ok)) && !(ok && s.lock.calls[t].owner == owner)
    ensures RecordOf(WriteStep(s, t, ok).vault, owner) == RecordOf(s.vault, owner)
  {
  }

  lemma RecordUses(s: State, t: Ticket, ok: bool, audited: bool, owner: Owner)
    requires Inv(s) && Enabled(s, RecordDone(t, ok, audited))
    ensures SameButUses(RecordOf(s.vault, owner).items, RecordOf(RecordStep(s, t, ok, audited).vault, owner).items)
  {
    assert Current(s.frames[t], RecordOf(s.vault, s.lock.calls[t].owner));
  }

  ghost predicate SameButUses(before: Items, after: Items) {
    && before.Keys == after.Keys
    && forall k | k in before :: after[k] == before[k].(lastUsedAt := after[k].lastUsedAt)
  }

  // ---- A revoked credential is not used ---------------------------------------------------------

  predicate Gone(vault: Vault, owner: Owner, id: Id) {
    var items := RecordOf(vault, owner).items;
    id in items ==> items[id].disabled
  }

  /** No call of this credential is noted from position `from` of the history on. */
  ghost predicate NoneSent(history: seq<A.Fact>, from: nat, owner: Owner, id: Id) {
    forall k | from <= k < |history| && history[k].Sent? :: !(history[k].owner == owner && history[k].action.id == id)
  }

  predicate Names(f: A.Fact, owner: Owner, id: Id) { f.Sent? && f.owner == owner && f.action.id == id }

  lemma NotedSpares(history: seq<A.Fact>, f: A.Fact, from: nat, owner: Owner, id: Id)
    requires NoneSent(history, from, owner, id) && !Names(f, owner, id)
    ensures NoneSent(history + [f], from, owner, id)
  {
  }

  lemma SendSpares(s: State, t: Ticket, data: Record, request: Request, consumed: Option<ApprovalId>, now: int,
                   audited: bool, owner: Owner, id: Id, from: nat)
    requires t in s.lock.calls && request.Execute? && request.action.id in data.items
    requires NoneSent(s.ledger.history, from, owner, id) && !(s.lock.calls[t].owner == owner && request.action.id == id)
    ensures NoneSent(SendStep(s, t, data, request, consumed, now, audited).ledger.history, from, owner, id)
  {
    NotedSpares(s.ledger.history, SentFact(s, t, data, request, consumed, now), from, owner, id);
  }

  lemma AskSpares(s: State, t: Ticket, data: Record, action: A.Action, now: int, newId: ApprovalId, owner: Owner,
                  id: Id, from: nat)
    requires t in s.lock.calls && action.id in data.items && NoneSent(s.ledger.history, from, owner, id)
    ensures NoneSent(AskStep(s, t, data, action, now, newId).ledger.history, from, owner, id)
  {
    NotedSpares(s.ledger.history, A.Requested(newId, s.lock.calls[t].owner, action, GrantOf(data.items[action.id]),
                                              now + A.APPROVAL_LIFE), from, owner, id);
  }

  lemma ExecuteSparesGone(s: State, t: Ticket, data: Record, request: Request, now: int, audited: bool,
                          newId: ApprovalId, owner: Owner, id: Id, from: nat)
    requires t in s.lock.calls && request.Execute? && data == RecordOf(s.vault, s.lock.calls[t].owner)
    requires Gone(s.vault, owner, id) && NoneSent(s.ledger.history, from, owner, id)
    ensures NoneSent(ExecuteStep(s, t, data, request, now, audited, newId).ledger.history, from, owner, id)
  {
    if ExecuteAccepted(s.profiles, data, request, now) {
      if !Gated(s.profiles[data.items[request.action.id].profile].operations[request.action.operation]) {
        SendSpares(s, t, data, request, None, now, audited, owner, id, from);
      } else if request.approvalId.None? {
        AskSpares(s, t, data, request.action, now, newId, owner, id, from);
      } else {
        var spent := s.(ledger := A.Marked(s.ledger, request.approvalId, A.Dispatched));
        SendSpares(spent, t, data, request, request.approvalId, now, audited, owner, id, from);
      }
    }
  }

  lemma ReadSparesGone(s: State, t: Ticket, ok: bool, now: int, audited: bool, newId: ApprovalId, owner: Owner, id: Id,
                       from: nat)
    requires Enabled(s, ReadDone(t, ok, now, audited, newId)) && Gone(s.vault, owner, id)
    requires NoneSent(s.ledger.history, from, owner, id)
    ensures NoneSent(ReadStep(s, t, ok, now, audited, newId).ledger.history, from, owner, id)
  {
    var request, data := s.frames[t].request, RecordOf(s.vault, s.lock.calls[t].owner);
    if ok && request.Execute? {
      ExecuteSparesGone(s, t, data, request, now, audited, newId, owner, id, from);
    } else if ok && request.Approve? {
      NotedSpares(s.ledger.history, A.Granted(request.approval, s.lock.calls[t].owner), from, owner, id);
    }
  }

  /** An acknowledged save of the credential. */
  ghost predicate Saves(states: seq<State>, events: seq<Event>, k: nat, owner: Owner, id: Id)
    requires k < |events| && k < |states|
  {
    exists r: Request :: Acknowledges(states, events, k, owner, r) && r.Save? && r.id == id
  }

  lemma GoneStays(profiles: map<string, Profile>, vault: Vault, states: seq<State>, events: seq<Event>, k: nat,
                  owner: Owner, id: Id, from: nat)
    requires IsBrokerRun(profiles, vault, states, events) && k < |events| && !Saves(states, events, k, owner, id)
    requires Gone(states[k].vault, owner, id) && NoneSent(states[k].ledger.history, from, owner, id)
    ensures Gone(states[k + 1].vault, owner, id) && NoneSent(states[k + 1].ledger.history, from, owner, id)
  {
    var s, e := states[k], events[k];
    RunTracks(profiles, vault, states, events, k);
    assert Follows(states, events, k);
    if e.ReadDone? && Enabled(s, e) {
      ReadSparesGone(s, e.ticket, e.ok, e.now, e.audited, e.newId, owner, id, from);
      VaultStays(s, e);
    } else {
      SameHistory(s, e);
      if e.WriteDone? && e.ok && Enabled(s, e) && s.lock.calls[e.ticket].owner == owner {
        var r := RequestsAt(states, events, k)[e.ticket];
        assert Acknowledges(states, events, k, owner, r);
        WritesDoAsAsked(profiles, vault, states, events, k, owner, r);
      } else {
        OnlyWritesChange(profiles, vault, states, events, k, owner);
      }
    }
  }

  lemma SameHistory(s: State, e: Event)
    requires !(e.ReadDone? && Enabled(s, e))
    ensures Advance(s, e).ledger.history == s.ledger.history
  {
  }

  /** From an acknowledged disable or delete of a credential on, until an acknowledged
      save of it, no provider call names it. */
  lemma {:induction false} RevokedIsNotUsed(profiles: map<string, Profile>, vault: Vault, states: seq<State>,
                                            events: seq<Event>, i: nat, j: nat, owner: Owner, r: Request)
    requires IsBrokerRun(profiles, vault, states, events) && i < j < |states|
    requires Acknowledges(states, events, i, owner, r) && (r.Disable? || r.Delete?)
    requires forall k | i < k < j :: !Saves(states, events, k, owner, r.id)
    ensures NoneSent(states[j].ledger.history, |states[i].ledger.history|, owner, r.id)
    ensures Gone(states[j].vault, owner, r.id)
    decreases j
  {
    if j == i + 1 {
      WritesDoAsAsked(profiles, vault, states, events, i, owner, r);
      assert Follows(states, events, i);
      SameHistory(states[i], events[i]);
    } else {
      RevokedIsNotUsed(profiles, vault, states, events, i, j - 1, owner, r);
      GoneStays(profiles, vault, states, events, j - 1, owner, r.id, |states[i].ledger.history|);
    }
  }
}
