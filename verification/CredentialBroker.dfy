/** The credential broker as a machine over the points where a call suspends:
    the wait for the owner's lock, the vault read, the provider call and the
    vault writes. Between two of them the source runs without interruption, so
    each event below is one uninterrupted stretch. */
module CredentialBroker {
  import opened Outcomes
  import opened CredentialVault
  import A = ApprovalLedger
  import L = CallLock
  import U = UsageWindow

  type Ticket = L.Ticket
  type ApprovalId = A.ApprovalId

  const ITEM_LIMIT: nat := 32
  const MAX_EXPIRY: int := 90 * 86400000

  datatype Operation = Operation(isGet: bool, requiresApproval: bool, parameters: set<string>)

  datatype Profile = Profile(operations: map<string, Operation>)

  /** `wellFormed` is the outcome of the shape and pattern checks on the input. */
  datatype Request =
    | NoVault
    | List
    | Save(id: Id, credential: Credential, wellFormed: bool)
    | Disable(id: Id)
    | Delete(id: Id)
    | Approve(approval: ApprovalId)
    | Outcome(approval: ApprovalId)
    | Execute(action: A.Action, wellFormed: bool, approvalId: Option<ApprovalId>)
    | Unsupported

  /** Where an admitted call is suspended. */
  datatype Frame =
    | Waiting(request: Request)
    | Reading(request: Request)
    | Writing(record: Record, id: Id)
    | Calling(record: Record, action: A.Action, approvalId: Option<ApprovalId>)
    | Recording(record: Record, action: A.Action, approvalId: Option<ApprovalId>)

  datatype State = State(
    profiles: map<string, Profile>,
    lock: L.Lock,
    usage: map<Owner, U.Window>,
    ledger: A.Ledger,
    vault: Vault,
    frames: map<Ticket, Frame>)

  datatype Event =
    | Enter(owner: Owner, request: Request, now: int)
    | Resume(ticket: Ticket)
    | ReadDone(ticket: Ticket, ok: bool, now: int, audited: bool, newId: ApprovalId)
    | WriteDone(ticket: Ticket, ok: bool)
    | CallDone(ticket: Ticket, ok: bool, now: int)
    | RecordDone(ticket: Ticket, ok: bool, audited: bool)

  function Start(profiles: map<string, Profile>, vault: Vault): State {
    State(profiles, L.EMPTY, map[], A.EMPTY, vault, map[])
  }

  /** The `finally` block: the call leaves and its owner's next one may run. */
  function Finished(s: State, t: Ticket): State
    requires t in s.lock.calls
  {
    s.(lock := L.SettleStep(s.lock, t), frames := s.frames - {t})
  }

  function Suspended(s: State, t: Ticket, f: Frame): State {
    s.(frames := s.frames[t := f])
  }

  function EnterStep(s: State, owner: Owner, request: Request, now: int): State {
    var arrival := U.Arrival(owner, now, request.Execute?);
    var n := s.(ledger := A.Pruned(s.ledger, now), usage := U.NextUsage(s.usage, arrival));
    if !U.Admitted(s.usage, arrival) || L.Refused(s.lock, owner) then n
    else Suspended(n.(lock := L.AdmitStep(s.lock, owner)), s.lock.issued, Waiting(request))
  }

  function ResumeStep(s: State, t: Ticket): (n: State)
    requires L.CanBegin(s.lock, t) && t in s.frames && s.frames[t].Waiting?
    ensures n.usage == s.usage && n.profiles == s.profiles
  {
    var begun := Suspended(s.(lock := L.BeginStep(s.lock, t)), t, Reading(s.frames[t].request));
    if s.frames[t].request.NoVault? then Finished(begun, t) else begun
  }

  predicate SaveAccepted(profiles: map<string, Profile>, data: Record, request: Request, now: int)
    requires request.Save?
  {
    var c := request.credential;
    && request.wellFormed
    && c.profile in profiles
    && now < c.expiresAt <= now + MAX_EXPIRY
    && c.operations != {}
    && c.operations <= profiles[c.profile].operations.Keys
    && (request.id in data.items || |data.items| < ITEM_LIMIT)
  }

  /** The checks on a credential and its operation before any approval is consulted. */
  predicate ExecuteAccepted(profiles: map<string, Profile>, data: Record, request: Request, now: int)
    requires request.Execute?
  {
    var a := request.action;
    && Usable(data, a.id, a.workspace, now)
    && var c := data.items[a.id];
    && c.profile in profiles
    && a.operation in profiles[c.profile].operations
    && a.operation in c.operations
    && request.wellFormed
    && var op := profiles[c.profile].operations[a.operation];
    && a.parameters.Keys <= op.parameters
    && forall k | k in c.scopes && k in op.parameters :: k in a.parameters && a.parameters[k] == c.scopes[k]
  }

  predicate Gated(op: Operation) {
    !op.isGet || op.requiresApproval
  }

  function SaveStep(s: State, t: Ticket, data: Record, request: Request, now: int, audited: bool): (n: State)
    requires t in s.lock.calls && request.Save?
    ensures n.usage == s.usage && n.profiles == s.profiles
  {
    if !SaveAccepted(s.profiles, data, request, now) || !audited then Finished(s, t)
    else
      var c := request.credential.(disabled := false, updatedAt := now, lastUsedAt := None);
      Suspended(s, t, Writing(Record(data.items[request.id := c], data.version), request.id))
  }

  function RevokeStep(s: State, t: Ticket, data: Record, request: Request, audited: bool): (n: State)
    requires t in s.lock.calls && (request.Disable? || request.Delete?)
    ensures n.usage == s.usage && n.profiles == s.profiles
  {
    if request.id !in data.items || !audited then Finished(s, t)
    else
      var items := if request.Delete? then data.items - {request.id}
                   else data.items[request.id := data.items[request.id].(disabled := true)];
      Suspended(s, t, Writing(Record(items, data.version), request.id))
  }

  function ApproveStep(s: State, t: Ticket, data: Record, a: ApprovalId, now: int, audited: bool): (n: State)
    requires t in s.lock.calls
    ensures n.usage == s.usage && n.profiles == s.profiles
  {
    var owner := s.lock.calls[t].owner;
    var pending := s.ledger.pending;
    if a !in pending || pending[a].owner != owner || pending[a].stage != A.Pending
       || !Usable(data, pending[a].action.id, pending[a].action.workspace, now) || !audited then
      Finished(s, t)
    else
      Finished(s.(ledger := A.Allowed(s.ledger, a, owner)), t)
  }

  /** The first call of a gated operation records what it asks for. */
  function AskStep(s: State, t: Ticket, data: Record, action: A.Action, now: int, newId: ApprovalId): (n: State)
    requires t in s.lock.calls && action.id in data.items
    ensures n.usage == s.usage && n.profiles == s.profiles
  {
    var owner := s.lock.calls[t].owner;
    if |A.LiveOf(s.ledger, owner)| >= A.PENDING_LIMIT then Finished(s, t)
    else Finished(s.(ledger := A.Asked(s.ledger, newId, owner, action, GrantOf(data.items[action.id]), now)), t)
  }

  /** What is sent, and with which approval. */
  function SentFact(s: State, t: Ticket, data: Record, request: Request, consumed: Option<ApprovalId>, now: int): A.Fact
    requires t in s.lock.calls && request.Execute? && request.action.id in data.items
  {
    A.Sent(t, s.lock.calls[t].owner, request.action, data.items[request.action.id], now, consumed)
  }

  /** The audit record and then the provider call. */
  function SendStep(s: State, t: Ticket, data: Record, request: Request, consumed: Option<ApprovalId>, now: int,
                    audited: bool): (n: State)
    requires t in s.lock.calls && request.Execute? && request.action.id in data.items
    ensures n.usage == s.usage && n.profiles == s.profiles
  {
    if !audited then Finished(s, t)
    else Suspended(s.(ledger := A.Noted(s.ledger, SentFact(s, t, data, request, consumed, now))), t,
                   Calling(data, request.action, request.approvalId))
  }

  function ExecuteStep(s: State, t: Ticket, data: Record, request: Request, now: int, audited: bool, newId: ApprovalId)
    : (n: State)
    requires t in s.lock.calls && request.Execute?
    ensures n.usage == s.usage && n.profiles == s.profiles
  {
    if !ExecuteAccepted(s.profiles, data, request, now) then Finished(s, t)
    else
      var op := s.profiles[data.items[request.action.id].profile].operations[request.action.operation];
      if !Gated(op) then SendStep(s, t, data, request, None, now, audited)
      else match request.approvalId
        case None => AskStep(s, t, data, request.action, now, newId)
        case Some(a) =>
          if !A.Redeemable(s.ledger, a, s.lock.calls[t].owner, request.action) then Finished(s, t)
          else SendStep(s.(ledger := A.Marked(s.ledger, Some(a), A.Dispatched)), t, data, request, Some(a), now,
                        audited)
  }

  function ReadStep(s: State, t: Ticket, ok: bool, now: int, audited: bool, newId: ApprovalId): (n: State)
    requires t in s.lock.calls && t in s.frames && s.frames[t].Reading?
    ensures n.usage == s.usage && n.profiles == s.profiles
  {
    var request := s.frames[t].request;
    var data := RecordOf(s.vault, s.lock.calls[t].owner);
    if !ok then Finished(s, t)
    else match request
      case Save(_, _, _) => SaveStep(s, t, data, request, now, audited)
      case Disable(_) => RevokeStep(s, t, data, request, audited)
      case Delete(_) => RevokeStep(s, t, data, request, audited)
      case Approve(a) => ApproveStep(s, t, data, a, now, audited)
      case Execute(_, _, _) => ExecuteStep(s, t, data, request, now, audited, newId)
      case _ => Finished(s, t)
  }

  predicate HoldsRecord(f: Frame) {
    f.Writing? || f.Recording?
  }

  /** The vault's own check on a write. */
  predicate VersionMatches(s: State, t: Ticket)
    requires t in s.lock.calls && t in s.frames && HoldsRecord(s.frames[t])
  {
    s.frames[t].record.version == RecordOf(s.vault, s.lock.calls[t].owner).version
  }

  function Stored(vault: Vault, owner: Owner, record: Record): Vault {
    vault[owner := record.(version := record.version + 1)]
  }

  function WriteStep(s: State, t: Ticket, ok: bool): (n: State)
    requires t in s.lock.calls && t in s.frames && s.frames[t].Writing?
    ensures n.usage == s.usage && n.profiles == s.profiles
  {
    var owner := s.lock.calls[t].owner;
    if !ok then Finished(s, t)
    else Finished(s.(vault := Stored(s.vault, owner, s.frames[t].record),
                     ledger := A.Purged(s.ledger, owner, s.frames[t].id)), t)
  }

  function CallStep(s: State, t: Ticket, ok: bool, now: int): (n: State)
    requires t in s.lock.calls && t in s.frames && s.frames[t].Calling?
    ensures n.usage == s.usage && n.profiles == s.profiles
  {
    var Calling(record, action, approvalId) := s.frames[t];
    if ok && action.id in record.items then
      var used := record.items[action.id].(lastUsedAt := Some(now));
      Suspended(s, t, Recording(record.(items := record.items[action.id := used]), action, approvalId))
    else
      Finished(s.(ledger := A.Marked(s.ledger, approvalId, A.Uncertain)), t)
  }

  function RecordStep(s: State, t: Ticket, ok: bool, audited: bool): (n: State)
    requires t in s.lock.calls && t in s.frames && s.frames[t].Recording?
    ensures n.usage == s.usage && n.profiles == s.profiles
  {
    var f := s.frames[t];
    Finished(s.(vault := if ok then Stored(s.vault, s.lock.calls[t].owner, f.record) else s.vault,
                ledger := A.Marked(s.ledger, f.approvalId, if ok && audited then A.Complete else A.Uncertain)), t)
  }

  /** The event can happen now. A random approval id is one never seen before,
      and the vault acknowledges only a write whose version matches. */
  predicate Enabled(s: State, e: Event) {
    match e
    case Enter(_, _, _) => true
    case Resume(t) => L.CanBegin(s.lock, t) && t in s.frames && s.frames[t].Waiting?
    case ReadDone(t, _, _, _, newId) =>
      L.CanSettle(s.lock, t) && t in s.frames && s.frames[t].Reading? && newId !in s.ledger.requestedAt
    case WriteDone(t, ok) =>
      L.CanSettle(s.lock, t) && t in s.frames && s.frames[t].Writing? && (ok ==> VersionMatches(s, t))
    case CallDone(t, _, _) => L.CanSettle(s.lock, t) && t in s.frames && s.frames[t].Calling?
    case RecordDone(t, ok, _) =>
      L.CanSettle(s.lock, t) && t in s.frames && s.frames[t].Recording? && (ok ==> VersionMatches(s, t))
  }

  function Next(s: State, e: Event): State
    requires Enabled(s, e)
  {
    match e
    case Enter(owner, request, now) => EnterStep(s, owner, request, now)
    case Resume(t) => ResumeStep(s, t)
    case ReadDone(t, ok, now, audited, newId) => ReadStep(s, t, ok, now, audited, newId)
    case WriteDone(t, ok) => WriteStep(s, t, ok)
    case CallDone(t, ok, now) => CallStep(s, t, ok, now)
    case RecordDone(t, ok, audited) => RecordStep(s, t, ok, audited)
  }

  /** An event that cannot happen now leaves the state as it is. */
  function Advance(s: State, e: Event): State {
    if Enabled(s, e) then Next(s, e) else s
  }

  function Run(s: State, events: seq<Event>): State
    decreases |events|
  {
    if events == [] then s else Run(Advance(s, events[0]), events[1..])
  }
}
