/** The pending approvals of gated operations, with the history that explains
    them: who asked for what, who approved, and what was sent. */
module ApprovalLedger {
  import opened Outcomes
  import opened Basics
  import opened CredentialVault

  type ApprovalId = nat

  const PENDING_LIMIT: nat := 16
  const APPROVAL_LIFE: int := 120000

  /** The canonical form that the source digests. */
  datatype Action = Action(id: Id, workspace: Workspace, operation: string, parameters: map<string, string>)

  datatype Stage = Pending | Approved | Dispatched | Complete | Uncertain

  datatype Approval = Approval(owner: Owner, action: Action, stage: Stage, expiresAt: int)

  datatype Fact =
    | Requested(approval: ApprovalId, owner: Owner, action: Action, grant: Grant, expiresAt: int)
    | Granted(approval: ApprovalId, owner: Owner)
    | Sent(ticket: nat, owner: Owner, action: Action, credential: Credential, now: int, consumed: Option<ApprovalId>)

  /** The fact is the request that names approval `a`, for this action under this grant. */
  predicate Asks(f: Fact, a: ApprovalId, owner: Owner, action: Action, grant: Grant) {
    f.Requested? && f.approval == a && f.owner == owner && f.action == action && f.grant == grant
  }

  /** `pending` is the broker's map. The two index maps give the position in
      `history` of each request and of each approval. */
  datatype Ledger = Ledger(
    pending: map<ApprovalId, Approval>,
    history: seq<Fact>,
    requestedAt: map<ApprovalId, nat>,
    grantedAt: map<ApprovalId, nat>)

  const EMPTY: Ledger := Ledger(map[], [], map[], map[])

  // ---- Operations ----------------------------------------------------------

  function Pruned(l: Ledger, now: int): Ledger {
    l.(pending := map a | a in l.pending && l.pending[a].expiresAt > now :: l.pending[a])
  }

  /** A changed credential loses its approvals. */
  function Purged(l: Ledger, owner: Owner, id: Id): Ledger {
    l.(pending := map a | a in l.pending && !(l.pending[a].owner == owner && l.pending[a].action.id == id) ::
        l.pending[a])
  }

  function LiveOf(l: Ledger, owner: Owner): set<ApprovalId> {
    set a | a in l.pending && l.pending[a].owner == owner
  }

  /** Any stored approval that the caller names is marked, whoever owns it. */
  function Marked(l: Ledger, approvalId: Option<ApprovalId>, stage: Stage): Ledger {
    if approvalId.Some? && approvalId.value in l.pending
    then l.(pending := l.pending[approvalId.value := l.pending[approvalId.value].(stage := stage)])
    else l
  }

  function Noted(l: Ledger, f: Fact): Ledger {
    l.(history := l.history + [f])
  }

  function Asked(l: Ledger, a: ApprovalId, owner: Owner, action: Action, grant: Grant, now: int): Ledger {
    Noted(l, Requested(a, owner, action, grant, now + APPROVAL_LIFE))
    .(requestedAt := l.requestedAt[a := |l.history|],
      pending := l.pending[a := Approval(owner, action, Pending, now + APPROVAL_LIFE)])
  }

  function Allowed(l: Ledger, a: ApprovalId, owner: Owner): Ledger {
    var n := Noted(l, Granted(a, owner));
    Marked(n.(grantedAt := l.grantedAt[a := |l.history|]), Some(a), Approved)
  }

  /** An approved request for exactly this action. */
  predicate Redeemable(l: Ledger, a: ApprovalId, owner: Owner, action: Action) {
    a in l.pending && l.pending[a].owner == owner && l.pending[a].action == action && l.pending[a].stage == Approved
  }

  // ---- What the ledger keeps -----------------------------------------------

  ghost predicate Indexed(l: Ledger) {
    && (forall a | a in l.requestedAt ::
          && l.requestedAt[a] < |l.history|
          && l.history[l.requestedAt[a]].Requested?
          && l.history[l.requestedAt[a]].approval == a)
    && (forall a | a in l.grantedAt ::
          && a in l.requestedAt
          && l.requestedAt[a] < l.grantedAt[a] < |l.history|
          && l.history[l.grantedAt[a]] == Granted(a, l.history[l.requestedAt[a]].owner))
  }

  /** A live approval was requested for a credential that is still stored with
      the same grant, and is approved only if its owner approved it. */
  ghost predicate Backed(l: Ledger, vault: Vault, a: ApprovalId)
    requires a in l.pending && Indexed(l)
  {
    var p := l.pending[a];
    var grant := StoredGrant(vault, p.owner, p.action.id);
    && a in l.requestedAt
    && grant.Some?
    && l.history[l.requestedAt[a]] == Requested(a, p.owner, p.action, grant.value, p.expiresAt)
    && (p.stage == Approved ==> a in l.grantedAt)
    && (p.stage == Pending ==> a !in l.grantedAt)
  }

  ghost predicate AllBacked(l: Ledger, vault: Vault)
    requires Indexed(l)
  {
    forall a | a in l.pending :: Backed(l, vault, a)
  }

  ghost predicate Spent(l: Ledger, a: ApprovalId) {
    a in l.pending ==> l.pending[a].stage != Pending && l.pending[a].stage != Approved
  }

  ghost predicate SentBacked(l: Ledger, i: nat)
    requires i < |l.history| && l.history[i].Sent? && Indexed(l)
  {
    var f := l.history[i];
    f.consumed.Some? ==>
      var a := f.consumed.value;
      && a in l.grantedAt
      && l.grantedAt[a] < i
      && Asks(l.history[l.requestedAt[a]], a, f.owner, f.action, GrantOf(f.credential))
      && Spent(l, a)
  }

  ghost predicate AllSentBacked(l: Ledger)
    requires Indexed(l)
  {
    forall i | 0 <= i < |l.history| && l.history[i].Sent? :: SentBacked(l, i)
  }

  ghost predicate SentOnce(history: seq<Fact>) {
    forall i, j | 0 <= i < j < |history| && history[i].Sent? && history[j].Sent? && history[i].consumed.Some? ::
      history[i].consumed != history[j].consumed
  }

  ghost predicate Few(l: Ledger) {
    forall o: Owner :: |LiveOf(l, o)| <= PENDING_LIMIT
  }

  ghost predicate Inv(l: Ledger, vault: Vault) {
    && Indexed(l)
    && AllBacked(l, vault)
    && AllSentBacked(l)
    && SentOnce(l.history)
    && Few(l)
  }

  // ---- Each operation keeps it ---------------------------------------------

  /** `q` is `p`, perhaps spent, and its grant is stored as it was. */
  ghost predicate Lessened(p: Approval, vault: Vault, q: Approval, stored: Vault) {
    && q.owner == p.owner && q.action == p.action && q.expiresAt == p.expiresAt
    && (q.stage == p.stage || q.stage in {Dispatched, Complete, Uncertain})
    && StoredGrant(stored, q.owner, q.action.id) == StoredGrant(vault, q.owner, q.action.id)
  }

  /** Dropping or spending approvals, while the grants of those that stay are
      stored unchanged. */
  lemma {:induction false} FewerKeepsInv(l: Ledger, vault: Vault, n: Ledger, stored: Vault)
    requires Inv(l, vault) && n == l.(pending := n.pending)
    requires n.pending.Keys <= l.pending.Keys
    requires forall a | a in n.pending :: Lessened(l.pending[a], vault, n.pending[a], stored)
    ensures Inv(n, stored)
  {
    forall a | a in n.pending
      ensures Backed(n, stored, a)
    {
      LessenedStaysBacked(l, vault, n, stored, a);
    }
    forall i | 0 <= i < |n.history| && n.history[i].Sent?
      ensures SentBacked(n, i)
    {
      SpentStaysSpent(l, vault, n, stored, i);
    }
    FewerKeepsFew(l, n);
  }

  lemma LessenedStaysBacked(l: Ledger, vault: Vault, n: Ledger, stored: Vault, a: ApprovalId)
    requires Indexed(l) && n == l.(pending := n.pending) && Indexed(n)
    requires a in l.pending && Backed(l, vault, a)
    requires a in n.pending && Lessened(l.pending[a], vault, n.pending[a], stored)
    ensures Backed(n, stored, a)
  {
  }

  lemma SpentStaysSpent(l: Ledger, vault: Vault, n: Ledger, stored: Vault, i: nat)
    requires Indexed(l) && n == l.(pending := n.pending) && Indexed(n) && n.pending.Keys <= l.pending.Keys
    requires forall a | a in n.pending :: Lessened(l.pending[a], vault, n.pending[a], stored)
    requires i < |l.history| && l.history[i].Sent? && SentBacked(l, i)
    ensures SentBacked(n, i)
  {
  }

  lemma FewerKeepsFew(l: Ledger, n: Ledger)
    requires Few(l) && n.pending.Keys <= l.pending.Keys
    requires forall a | a in n.pending :: n.pending[a].owner == l.pending[a].owner
    ensures Few(n)
  {
    forall o: Owner
      ensures |LiveOf(n, o)| <= PENDING_LIMIT
    {
      assert LiveOf(n, o) <= LiveOf(l, o);
      SubsetIsSmaller(LiveOf(n, o), LiveOf(l, o));
    }
  }

  /** What a provider call must show for the approval it consumed. */
  ghost predicate Fits(l: Ledger, f: Fact)
    requires Indexed(l)
  {
    f.Sent? && f.consumed.Some? ==>
      && f.consumed.value in l.grantedAt
      && Asks(l.history[l.requestedAt[f.consumed.value]], f.consumed.value, f.owner, f.action, GrantOf(f.credential))
      && Spent(l, f.consumed.value)
  }

  lemma NotedKeepsInv(l: Ledger, vault: Vault, f: Fact)
    requires Inv(l, vault) && Fits(l, f)
    requires f.Sent? && f.consumed.Some? ==>
               forall i | 0 <= i < |l.history| && l.history[i].Sent? :: l.history[i].consumed != f.consumed
    ensures Inv(Noted(l, f), vault)
  {
    NotedKeepsBacked(l, vault, f);
    NotedKeepsSent(l, f);
    FewerKeepsFew(l, Noted(l, f));
  }

  lemma NotedKeepsSent(l: Ledger, f: Fact)
    requires Indexed(l) && AllSentBacked(l) && Fits(l, f) && Indexed(Noted(l, f))
    ensures AllSentBacked(Noted(l, f))
  {
    var n := Noted(l, f);
    forall i | 0 <= i < |n.history| && n.history[i].Sent?
      ensures SentBacked(n, i)
    {
      if i < |l.history| { assert SentBacked(l, i); }
    }
  }

  lemma NotedKeepsBacked(l: Ledger, vault: Vault, f: Fact)
    requires Indexed(l) && AllBacked(l, vault)
    ensures Indexed(Noted(l, f)) && AllBacked(Noted(l, f), vault)
  {
    forall a | a in l.pending
      ensures Indexed(Noted(l, f)) && Backed(Noted(l, f), vault, a)
    {
      assert Backed(l, vault, a);
    }
  }

  lemma AskedKeepsInv(l: Ledger, vault: Vault, a: ApprovalId, owner: Owner, action: Action, grant: Grant, now: int)
    requires Inv(l, vault) && a !in l.requestedAt
    requires StoredGrant(vault, owner, action.id) == Some(grant)
    requires |LiveOf(l, owner)| < PENDING_LIMIT
    ensures Inv(Asked(l, a, owner, action, grant, now), vault)
  {
    var asked := Requested(a, owner, action, grant, now + APPROVAL_LIFE);
    var m := Noted(l, asked);
    NotedKeepsInv(l, vault, asked);
    forall b | b in m.pending
      ensures b in m.requestedAt
    {
      assert Backed(m, vault, b);
    }
    AddedKeepsInv(m, vault, a, Approval(owner, action, Pending, now + APPROVAL_LIFE), |l.history|);
  }

  lemma AddedKeepsInv(m: Ledger, vault: Vault, a: ApprovalId, p: Approval, at: nat)
    requires Inv(m, vault) && a !in m.requestedAt && a !in m.pending
    requires at < |m.history| && p.stage == Pending && |LiveOf(m, p.owner)| < PENDING_LIMIT
    requires var grant := StoredGrant(vault, p.owner, p.action.id);
             grant.Some? && m.history[at] == Requested(a, p.owner, p.action, grant.value, p.expiresAt)
    ensures Inv(m.(requestedAt := m.requestedAt[a := at], pending := m.pending[a := p]), vault)
  {
    var n := m.(requestedAt := m.requestedAt[a := at], pending := m.pending[a := p]);
    AddedIsBacked(m, vault, a, p, at, n);
    ChangedKeepsOthers(m, n, vault, a);
    AddedKeepsFew(m, n, a, p.owner);
  }

  lemma AddedIsBacked(m: Ledger, vault: Vault, a: ApprovalId, p: Approval, at: nat, n: Ledger)
    requires Indexed(m) && a !in m.requestedAt && at < |m.history| && p.stage == Pending
    requires var grant := StoredGrant(vault, p.owner, p.action.id);
             grant.Some? && m.history[at] == Requested(a, p.owner, p.action, grant.value, p.expiresAt)
    requires n == m.(requestedAt := m.requestedAt[a := at], pending := m.pending[a := p])
    ensures Indexed(n) && Backed(n, vault, a)
    ensures forall b | b != a :: SameAt(m, n, b)
  {
  }

  lemma AddedKeepsFew(m: Ledger, n: Ledger, a: ApprovalId, owner: Owner)
    requires Few(m) && a in n.pending && n.pending == m.pending[a := n.pending[a]]
    requires n.pending[a].owner == owner && |LiveOf(m, owner)| < PENDING_LIMIT && a !in m.pending
    ensures Few(n)
  {
    forall o: Owner
      ensures |LiveOf(n, o)| <= PENDING_LIMIT
    {
      if o == owner {
        assert LiveOf(n, o) == LiveOf(m, o) + {a};
      } else {
        assert LiveOf(n, o) == LiveOf(m, o);
      }
    }
  }

  ghost predicate SameAt(m: Ledger, n: Ledger, b: ApprovalId) {
    && (b in m.pending <==> b in n.pending)
    && (b in m.pending ==> m.pending[b] == n.pending[b])
    && (b in m.requestedAt <==> b in n.requestedAt)
    && (b in m.requestedAt ==> m.requestedAt[b] == n.requestedAt[b])
    && (b in m.grantedAt <==> b in n.grantedAt)
    && (b in m.grantedAt ==> m.grantedAt[b] == n.grantedAt[b])
  }

  /** Changing the entries of one approval that was never redeemed. */
  lemma ChangedKeepsOthers(m: Ledger, n: Ledger, vault: Vault, a: ApprovalId)
    requires Indexed(m) && AllBacked(m, vault) && AllSentBacked(m) && Indexed(n)
    requires n.history == m.history
    requires forall b | b != a :: SameAt(m, n, b)
    requires a !in m.grantedAt && a in n.pending && Backed(n, vault, a)
    ensures AllBacked(n, vault) && AllSentBacked(n)
  {
    forall b | b in n.pending
      ensures Backed(n, vault, b)
    {
      if b != a {
        assert SameAt(m, n, b);
        assert Backed(m, vault, b);
      }
    }
    forall i | 0 <= i < |n.history| && n.history[i].Sent?
      ensures SentBacked(n, i)
    {
      assert SentBacked(m, i);
      if n.history[i].consumed.Some? {
        assert SameAt(m, n, n.history[i].consumed.value);
      }
    }
  }

  lemma AllowedKeepsInv(l: Ledger, vault: Vault, a: ApprovalId, owner: Owner)
    requires Inv(l, vault)
    requires a in l.pending && l.pending[a].stage == Pending && l.pending[a].owner == owner
    ensures Inv(Allowed(l, a, owner), vault)
  {
    var m := Noted(l, Granted(a, owner));
    NotedKeepsInv(l, vault, Granted(a, owner));
    assert Backed(l, vault, a) && Backed(m, vault, a);
    GrantedKeepsInv(m, vault, a, |l.history|);
    assert Allowed(l, a, owner) == m.(grantedAt := m.grantedAt[a := |l.history|],
                                      pending := m.pending[a := m.pending[a].(stage := Approved)]);
  }

  lemma GrantedKeepsInv(m: Ledger, vault: Vault, a: ApprovalId, at: nat)
    requires Inv(m, vault) && a in m.pending && m.pending[a].stage == Pending && Backed(m, vault, a)
    requires m.requestedAt[a] < at < |m.history| && m.history[at] == Granted(a, m.pending[a].owner)
    ensures Inv(m.(grantedAt := m.grantedAt[a := at], pending := m.pending[a := m.pending[a].(stage := Approved)]),
      vault)
  {
    var n := m.(grantedAt := m.grantedAt[a := at], pending := m.pending[a := m.pending[a].(stage := Approved)]);
    GrantedIsBacked(m, vault, a, at, n);
    ChangedKeepsOthers(m, n, vault, a);
    FewerKeepsFew(m, n);
  }

  lemma GrantedIsBacked(m: Ledger, vault: Vault, a: ApprovalId, at: nat, n: Ledger)
    requires Indexed(m) && a in m.pending && Backed(m, vault, a)
    requires m.requestedAt[a] < at < |m.history| && m.history[at] == Granted(a, m.pending[a].owner)
    requires n == m.(grantedAt := m.grantedAt[a := at], pending := m.pending[a := m.pending[a].(stage := Approved)])
    ensures Indexed(n) && Backed(n, vault, a)
    ensures forall b | b != a :: SameAt(m, n, b)
  {
  }

  lemma MarkedKeepsInv(l: Ledger, vault: Vault, approvalId: Option<ApprovalId>, stage: Stage)
    requires Inv(l, vault) && stage in {Dispatched, Complete, Uncertain}
    ensures Inv(Marked(l, approvalId, stage), vault)
  {
    FewerKeepsInv(l, vault, Marked(l, approvalId, stage), vault);
  }

  /** Sending without an approval. */
  lemma SentFreelyKeepsInv(l: Ledger, vault: Vault, f: Fact)
    requires Inv(l, vault) && f.Sent? && f.consumed.None?
    ensures Inv(Noted(l, f), vault)
  {
    NotedKeepsInv(l, vault, f);
  }

  /** Redeeming an approval spends it and justifies the call. */
  lemma {:induction false} RedeemedKeepsInv(l: Ledger, vault: Vault, a: ApprovalId, f: Fact)
    requires Inv(l, vault) && f.Sent? && f.consumed == Some(a) && Redeemable(l, a, f.owner, f.action)
    requires StoredGrant(vault, f.owner, f.action.id) == Some(GrantOf(f.credential))
    ensures Inv(Noted(Marked(l, Some(a), Dispatched), f), vault)
  {
    assert Backed(l, vault, a);
    forall i | 0 <= i < |l.history| && l.history[i].Sent?
      ensures l.history[i].consumed != Some(a)
    {
      assert SentBacked(l, i);
    }
    MarkedKeepsInv(l, vault, Some(a), Dispatched);
    NotedKeepsInv(Marked(l, Some(a), Dispatched), vault, f);
  }

  /** The provider call at position `i` was approved: its owner approved, before
      it, a request made before that for the same action while the credential
      carried the very grant that was sent. */
  ghost predicate Justified(history: seq<Fact>, i: nat)
    requires i < |history| && history[i].Sent?
  {
    var f := history[i];
    f.consumed.Some? &&
    exists k, j | 0 <= k < j < i ::
      && Asks(history[k], f.consumed.value, f.owner, f.action, GrantOf(f.credential))
      && history[j] == Granted(f.consumed.value, f.owner)
  }

  /** Every provider call that consumed an approval is justified, and no approval
      is consumed twice. */
  lemma ConsumedAreJustified(l: Ledger, vault: Vault)
    requires Inv(l, vault)
    ensures forall i | 0 <= i < |l.history| && l.history[i].Sent? && l.history[i].consumed.Some? ::
              Justified(l.history, i)
    ensures forall i, j | 0 <= i < j < |l.history| && l.history[i].Sent? && l.history[j].Sent? ::
              l.history[i].consumed.Some? ==> l.history[i].consumed != l.history[j].consumed
  {
    forall i | 0 <= i < |l.history| && l.history[i].Sent? && l.history[i].consumed.Some?
      ensures Justified(l.history, i)
    {
      assert SentBacked(l, i);
      var a := l.history[i].consumed.value;
      assert l.history[l.grantedAt[a]] == Granted(a, l.history[i].owner);
    }
  }

  lemma EmptyInv(vault: Vault)
    ensures Inv(EMPTY, vault)
  {
    forall o: Owner
      ensures |LiveOf(EMPTY, o)| <= PENDING_LIMIT
    {
      assert LiveOf(EMPTY, o) == {};
    }
  }
}
