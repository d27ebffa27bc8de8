/** The identity proof ledger (internal/access/identity_proofs.go): peers,
    their credentials, proof receipts and redemptions, each transaction as a
    function on the tables. Times are in milliseconds. */
module IdentityLedger {
  type ServiceId = string
  type HubId = string
  type UserId = string
  type TokenId = string
  type CredId = string
  type Challenge = string
  /** A receipt is named by its secret, which the ledger stores as a digest. */
  type Secret = string
  type RequestKey = string
  type Time = nat

  const RECEIPT_LIFE: nat := 60_000
  const MINUTE: nat := 60_000
  const RECEIPTS_PER_MINUTE: nat := 10
  const RETENTION: nat := 900_000
  const CREDENTIAL_MAX_LIFE: nat := 366 * 24 * 3600 * 1000
  const MAX_ACTIVE: nat := 2

  datatype Operation = RedeemOp | ReservationRead | TeamRegister | TeamRead | BoardRead | TaskRead

  datatype Peer = Peer(hub: HubId, disabled: bool)
  datatype Credential = Credential(service: ServiceId, op: Operation, expires: nat, revoked: bool)
  datatype State = Live | Superseded | Redeemed
  datatype Receipt = Receipt(
    service: ServiceId, hub: HubId, challenge: Challenge, user: UserId, token: TokenId,
    created: nat, expires: nat, state: State)
  datatype Redemption = Redemption(
    input: (HubId, Challenge, Secret), id: string, receipt: Secret,
    hub: HubId, challenge: Challenge, user: UserId, token: TokenId, at: nat)
  datatype Token = Token(user: UserId, revoked: bool, expires: nat, userScoped: bool)

  datatype Ledger = Ledger(
    hub: HubId,
    peers: map<ServiceId, Peer>,
    creds: map<CredId, Credential>,
    receipts: map<Secret, Receipt>,
    redemptions: map<(ServiceId, RequestKey), Redemption>,
    disabledUsers: set<UserId>,
    tokens: map<TokenId, Token>)

  function Seconds(t: Time): nat { t / 1000 }

  // ---- peers ----

  ghost predicate OtherEnabled(s: Ledger, service: ServiceId) {
    exists p :: p in s.peers && p != service && !s.peers[p].disabled
  }

  /** `RegisterIdentityPeer` for a record that passed the form checks; a second
      row for one service ID breaks the primary key. */
  ghost function Register(s: Ledger, service: ServiceId, hub: HubId): Ledger {
    if hub != s.hub || OtherEnabled(s, service) || service in s.peers then s
    else s.(peers := s.peers[service := Peer(hub, false)])
  }

  ghost function SetDisabled(s: Ledger, service: ServiceId, disabled: bool): Ledger {
    if service !in s.peers || (!disabled && OtherEnabled(s, service)) then s
    else s.(peers := s.peers[service := s.peers[service].(disabled := disabled)])
  }

  /** `RetireIdentityPeer`: a disabled peer and everything keyed by it. */
  function Retire(s: Ledger, service: ServiceId): Ledger {
    if service !in s.peers || !s.peers[service].disabled then s
    else s.(
      peers := s.peers - {service},
      creds := map c | c in s.creds && s.creds[c].service != service :: s.creds[c],
      receipts := map r | r in s.receipts && s.receipts[r].service != service :: s.receipts[r],
      redemptions := map k | k in s.redemptions && k.0 != service :: s.redemptions[k])
  }

  // ---- credentials ----

  function ActiveCreds(s: Ledger, service: ServiceId, op: Operation, now: Time): set<CredId> {
    set c | c in s.creds && s.creds[c].service == service && s.creds[c].op == op
            && !s.creds[c].revoked && s.creds[c].expires > Seconds(now)
  }

  /** `IssuePeerCredential`; expires is the requested time, stored in seconds. */
  function IssueCredential(s: Ledger, now: Time, service: ServiceId, op: Operation, expires: Time, id: CredId): (Ledger, bool) {
    if !(now < expires <= now + CREDENTIAL_MAX_LIFE) || service !in s.peers || s.peers[service].disabled
       || |ActiveCreds(s, service, op, now)| >= MAX_ACTIVE
    then (s, false)
    else (s.(creds := s.creds[id := Credential(service, op, Seconds(expires), false)]), true)
  }

  function RevokeCredential(s: Ledger, service: ServiceId, id: CredId): Ledger {
    if id in s.creds && s.creds[id].service == service then s.(creds := s.creds[id := s.creds[id].(revoked := true)]) else s
  }

  // ---- receipts ----

  /** `pruneIdentityLedger`. */
  function Prune(s: Ledger, now: Time): Ledger {
    s.(redemptions := map k | k in s.redemptions && s.redemptions[k].at + RETENTION >= now :: s.redemptions[k],
       receipts := map r | r in s.receipts && s.receipts[r].expires + RETENTION >= now :: s.receipts[r])
  }

  predicate TokenLive(s: Ledger, user: UserId, token: TokenId, now: Time) {
    && token in s.tokens && s.tokens[token].user == user && user !in s.disabledUsers
    && !s.tokens[token].revoked && s.tokens[token].expires > Seconds(now)
  }

  predicate TokenProves(s: Ledger, user: UserId, token: TokenId, now: Time) {
    TokenLive(s, user, token, now) && s.tokens[token].userScoped
  }

  /** The receipts that count against a token's rate. */
  function Recent(s: Ledger, token: TokenId, now: Time): set<Secret> {
    set r | r in s.receipts && s.receipts[r].token == token && s.receipts[r].created + MINUTE > now
  }

  datatype IssueAnswer = Issued | InvalidProofRequest | Denied | ScopeForbidden | PeerUnknown | RateLimited

  /** The live receipt of the same binding is superseded. */
  function Supersede(receipts: map<Secret, Receipt>, token: TokenId, service: ServiceId, challenge: Challenge): map<Secret, Receipt> {
    map r | r in receipts ::
      var x := receipts[r];
      if x.token == token && x.service == service && x.challenge == challenge && x.state == Live
      then x.(state := Superseded) else x
  }

  /** The tables after that and the new receipt. */
  function Insert(s: Ledger, now: Time, user: UserId, token: TokenId, service: ServiceId, hub: HubId, challenge: Challenge, secret: Secret): Ledger {
    s.(receipts := Supersede(s.receipts, token, service, challenge)
         [secret := Receipt(service, hub, challenge, user, token, now, now + RECEIPT_LIFE, Live)])
  }

  function IssueProof(s: Ledger, now: Time, user: UserId, token: TokenId, service: ServiceId, hub: HubId, challenge: Challenge, shaped: bool, secret: Secret): (Ledger, IssueAnswer) {
    if !shaped then (s, InvalidProofRequest)
    else if !TokenLive(s, user, token, now) then (s, Denied)
    else if !s.tokens[token].userScoped then (s, ScopeForbidden)
    else if service !in s.peers || s.peers[service].hub != hub || hub != s.hub || s.peers[service].disabled then (s, PeerUnknown)
    else if |Recent(s, token, now)| >= RECEIPTS_PER_MINUTE then (s, RateLimited)
    else (Insert(Prune(s, now), now, user, token, service, hub, challenge, secret), Issued)
  }

  // ---- redemption ----

  /** What an authenticated peer bearer proves. */
  datatype PeerIdentity = PeerIdentity(service: ServiceId, cred: CredId, op: Operation)

  datatype Request = Request(hub: HubId, challenge: Challenge, receipt: Secret, key: RequestKey) {
    function Input(): (HubId, Challenge, Secret) { (hub, challenge, receipt) }
  }

  predicate PeerValid(s: Ledger, p: PeerIdentity, now: Time) {
    && p.cred in s.creds && s.creds[p.cred].service == p.service && s.creds[p.cred].op == p.op
    && !s.creds[p.cred].revoked && s.creds[p.cred].expires > Seconds(now)
    && p.service in s.peers && !s.peers[p.service].disabled
  }

  datatype RedeemAnswer =
    | Accepted(rec: Redemption, replayed: bool)
    | ProofInvalid
    | CredentialInactive
    | IdempotencyConflict
    | PeerUnauthenticated
    | PeerForbidden
    | InvalidRequest

  /** The receipt a request redeems, if it may. */
  predicate Redeemable(s: Ledger, p: PeerIdentity, req: Request, now: Time) {
    && req.receipt in s.receipts
    && var x := s.receipts[req.receipt];
       && x.service == p.service && x.challenge == req.challenge && x.hub == req.hub
       && x.state == Live && x.expires > now
  }

  function Consume(s: Ledger, p: PeerIdentity, req: Request, now: Time, id: string): (Ledger, RedeemAnswer)
    requires req.receipt in s.receipts
  {
    var x := s.receipts[req.receipt];
    var rec := Redemption(req.Input(), id, req.receipt, x.hub, x.challenge, x.user, x.token, now);
    (s.(receipts := s.receipts[req.receipt := x.(state := Redeemed)],
        redemptions := s.redemptions[(p.service, req.key) := rec]),
     Accepted(rec, false))
  }

  /** `RedeemProof`. A refusal after the peer is authenticated keeps the pruned
      tables, as the transaction commits. */
  function RedeemProof(s: Ledger, now: Time, p: PeerIdentity, req: Request, shaped: bool, id: string): (Ledger, RedeemAnswer) {
    if p.op != RedeemOp then (s, PeerForbidden)
    else if !shaped then (s, InvalidRequest)
    else if !PeerValid(s, p, now) then (s, PeerUnauthenticated)
    else
      var t := Prune(s, now);
      if (p.service, req.key) in t.redemptions then
        var rec := t.redemptions[(p.service, req.key)];
        if rec.input != req.Input() then (t, IdempotencyConflict)
        else if !TokenProves(t, rec.user, rec.token, now) then (t, CredentialInactive)
        else (t, Accepted(rec, true))
      else if !Redeemable(t, p, req, now) then (t, ProofInvalid)
      else if !TokenProves(t, t.receipts[req.receipt].user, t.receipts[req.receipt].token, now) then (t, CredentialInactive)
      else Consume(t, p, req, now, id)
  }
}
