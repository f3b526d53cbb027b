/** The records that the credential broker keeps in the vault. */
module CredentialVault {
  import opened Outcomes

  type Owner = string
  type Id = string
  type Workspace = string

  datatype Credential = Credential(
    profile: string,
    workspace: Workspace,
    operations: set<string>,
    scopes: map<string, string>,
    secret: string,
    expiresAt: int,
    disabled: bool,
    updatedAt: int,
    lastUsedAt: Option<int>)

  /** What a user approves the use of. */
  datatype Grant = Grant(profile: string, workspace: Workspace, operations: set<string>,
                         scopes: map<string, string>, secret: string)

  /** One owner's document; `version` is its compare-and-set counter. */
  datatype Record = Record(items: map<Id, Credential>, version: nat)

  type Vault = map<Owner, Record>

  /** A missing document reads as an empty one at version 0. */
  function RecordOf(vault: Vault, owner: Owner): Record {
    if owner in vault then vault[owner] else Record(map[], 0)
  }

  function GrantOf(c: Credential): Grant {
    Grant(c.profile, c.workspace, c.operations, c.scopes, c.secret)
  }

  /** The grant an owner's credential carries, if it is stored. */
  function StoredGrant(vault: Vault, owner: Owner, id: Id): Option<Grant> {
    var items := RecordOf(vault, owner).items;
    if id in items then Some(GrantOf(items[id])) else None
  }

  /** The credential may be used now in this workspace. */
  predicate Usable(data: Record, id: Id, workspace: Workspace, now: int) {
    && id in data.items && !data.items[id].disabled
    && data.items[id].expiresAt > now && data.items[id].workspace == workspace
  }
}
