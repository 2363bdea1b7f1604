/** Who may ask whom for what: relationships, directional grants, requests, and the decision taken at every fence. */
module PeerPolicy {
  import opened Wrappers

  type Owner = nat
  type Id = nat

  datatype RelationStatus = Invited | Active | Revoked | Blocked

  /** Two distinct owners, in order, one of whom invited the other. */
  datatype Relationship = Relationship(a: Owner, b: Owner, invitedBy: Owner, status: RelationStatus, createdAt: int, revision: nat)
  {
    predicate Has(owner: Owner) {
      owner == a || owner == b
    }

    /** `other_owner`; the source raises for a stranger. */
    function Other(owner: Owner): Result<Owner> {
      if owner == a then Ok(b) else if owner == b then Ok(a) else Raised
    }
  }

  /** What a grantor lets the other owner of the relationship do. */
  datatype Grant = Grant(communicate: bool, autoReply: bool, shareAvailability: bool, revision: nat, expires: Option<int>, updatedAt: int)

  datatype Kind = Ordinary | Availability | Sensitive
  datatype Action = Ask | Mutating | Credentials | Forward | Commitment

  datatype Request = Request(
    relation: Id, sender: Owner, recipient: Owner, thread: Id, generation: Id, call: Id,
    kind: Kind, action: Action, text: string, sequence: nat, createdAt: int)

  datatype RequestStatus = Pending | ConfirmationPending | Authorized | Leased | Completed | Failed | Denied

  datatype Reason = UnsafeAction | RelationshipInactive | ExpiredGrant | MissingCommunicate | MissingAutoReply

  datatype Decision = Allow | Confirm | Deny(reason: Reason)

  predicate Unsafe(action: Action) {
    action == Mutating || action == Credentials || action == Forward
  }

  /** A status that stands for a confirmation already given, or for one not needed. */
  predicate Cleared(status: RequestStatus) {
    status == Authorized || status == Leased
  }

  predicate Lapsed(grants: map<Owner, Grant>, owner: Owner, now: int) {
    owner in grants && grants[owner].expires.Some? && grants[owner].expires.value <= now
  }

  /** `decide`: `grants` are the stored grants of the relationship by grantor. */
  function Decide(id: Id, relation: Option<Relationship>, grants: map<Owner, Grant>, request: Option<Request>, status: RequestStatus, now: int): Decision {
    if request.Some? && Unsafe(request.value.action) then Deny(UnsafeAction)
    else if relation.None? || relation.value.status != Active then Deny(RelationshipInactive)
    else if request.None? || request.value.relation != id then Deny(RelationshipInactive)
    else if relation.value.Other(request.value.sender) != Ok(request.value.recipient) then Deny(RelationshipInactive)
    else
      var sender, recipient := request.value.sender, request.value.recipient;
      if Lapsed(grants, sender, now) || Lapsed(grants, recipient, now) then Deny(ExpiredGrant)
      else if sender !in grants || !grants[sender].communicate then Deny(MissingCommunicate)
      else if recipient !in grants || !grants[recipient].autoReply then Deny(MissingAutoReply)
      else if request.value.action == Commitment && !Cleared(status) then Confirm
      else if request.value.kind == Availability && !grants[recipient].shareAvailability && !Cleared(status) then Confirm
      else if request.value.kind == Sensitive && !Cleared(status) then Confirm
      else Allow
  }

  // ----- What a decision means -----

  /** The grant has not expired. */
  predicate Live(g: Grant, now: int) {
    g.expires.None? || now < g.expires.value
  }

  /** Sender and recipient are the two owners of the relationship. */
  predicate Parties(r: Relationship, sender: Owner, recipient: Owner) {
    (sender == r.a && recipient == r.b) || (sender != r.a && sender == r.b && recipient == r.a)
  }

  /** Both owners of an active relationship have live grants: the sender may speak, the recipient answers by itself. */
  predicate Permitted(id: Id, relation: Option<Relationship>, grants: map<Owner, Grant>, r: Request, now: int) {
    && relation.Some? && relation.value.status.Active? && r.relation == id && Parties(relation.value, r.sender, r.recipient)
    && r.sender in grants && grants[r.sender].communicate && Live(grants[r.sender], now)
    && r.recipient in grants && grants[r.recipient].autoReply && Live(grants[r.recipient], now)
  }

  /** Only questions and commitments may be passed on. */
  predicate Acceptable(action: Action) {
    action.Ask? || action.Commitment?
  }

  /** What the recipient must be asked about each time. */
  predicate NeedsConfirmation(grants: map<Owner, Grant>, r: Request) {
    || r.action.Commitment? || r.kind.Sensitive?
    || (r.kind.Availability? && r.recipient in grants && !grants[r.recipient].shareAvailability)
  }

  /** The decision in terms of permission and confirmation: it denies exactly what is unsafe or not permitted, and
      asks exactly when a needed confirmation has not been given. */
  lemma DecisionMeans(id: Id, relation: Option<Relationship>, grants: map<Owner, Grant>, r: Request, status: RequestStatus, now: int)
    ensures var d := Decide(id, relation, grants, Some(r), status, now);
            var ok := Permitted(id, relation, grants, r, now) && Acceptable(r.action);
            var confirmed := status.Authorized? || status.Leased?;
      && (d.Deny? <==> !ok)
      && (d.Confirm? <==> ok && NeedsConfirmation(grants, r) && !confirmed)
      && (d.Allow? <==> ok && (NeedsConfirmation(grants, r) ==> confirmed))
  {
  }

  /** A denial names the first fence that failed: the action, the relationship, an expired grant of either owner, the
      sender's leave to speak, and then the recipient's leave to be answered for. */
  lemma DenialReasons(id: Id, relation: Option<Relationship>, grants: map<Owner, Grant>, r: Request, status: RequestStatus, now: int)
    ensures var d := Decide(id, relation, grants, Some(r), status, now);
            var related := relation.Some? && relation.value.status.Active? && r.relation == id && Parties(relation.value, r.sender, r.recipient);
            var live := (r.sender in grants ==> Live(grants[r.sender], now)) && (r.recipient in grants ==> Live(grants[r.recipient], now));
            var speaks := r.sender in grants && grants[r.sender].communicate;
      && (d == Deny(UnsafeAction) <==> !Acceptable(r.action))
      && (d == Deny(RelationshipInactive) <==> Acceptable(r.action) && !related)
      && (d == Deny(ExpiredGrant) <==> Acceptable(r.action) && related && !live)
      && (d == Deny(MissingCommunicate) <==> Acceptable(r.action) && related && live && !speaks)
      && (d == Deny(MissingAutoReply) <==> Acceptable(r.action) && related && live && speaks && !(r.recipient in grants && grants[r.recipient].autoReply))
  {
  }

  /** Without a request nothing is allowed. */
  lemma NothingAsked(id: Id, relation: Option<Relationship>, grants: map<Owner, Grant>, status: RequestStatus, now: int)
    ensures Decide(id, relation, grants, None, status, now) == Deny(RelationshipInactive)
  {
  }

  /** Grants only lapse: what is allowed at an instant was not denied for expiry at any earlier one. */
  lemma AllowedEarlier(id: Id, relation: Option<Relationship>, grants: map<Owner, Grant>, r: Request, status: RequestStatus, now: int, before: int)
    requires before <= now && Decide(id, relation, grants, Some(r), status, now).Allow?
    ensures Decide(id, relation, grants, Some(r), status, before).Allow?
  {
  }
}
