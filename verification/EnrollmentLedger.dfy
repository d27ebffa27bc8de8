/** The hub's enrollment ledger (internal/access/enrollments.go and
    enrollment_redeem.go): each transaction as a function from the tables to
    the tables and the answer.

    Digests are modelled by what they digest. A sealed delivery is an ideal
    box: only the key and the associated data it was sealed with open it. */
module EnrollmentLedger {
  import opened Options

  type BundleId = string
  type Code = string
  type UserId = string
  type TokenId = string
  type HubId = string
  /** A client's request key together with its public key. */
  type Key = nat

  /** Times are in nanoseconds; the ledger stores whole seconds. */
  type Time = nat
  const SECOND: nat := 1_000_000_000
  const RETENTION: nat := 3600 * SECOND
  const MAX_LIFE: nat := 72 * 3600 * SECOND
  const TOKEN_LIFE: nat := 365 * 24 * 3600

  function Seconds(t: Time): nat { t / SECOND }

  datatype Purpose = NewUser | ExistingUserReissue

  /** What a replay must repeat besides the code and the request key. */
  datatype Input = Input(hub: HubId, installation: string, key: Key)

  datatype Aad = Aad(hub: HubId, bundle: BundleId, key: Key, user: UserId, token: TokenId)
  datatype Plain = Plain(bearer: string, user: UserId, token: TokenId, hub: HubId)
  datatype Delivery = Sealed(to: Key, aad: Aad, plain: Plain)

  function Open(key: Key, aad: Aad, d: Delivery): Option<Plain> {
    if d.to == key && d.aad == aad then Some(d.plain) else None
  }

  datatype Redemption = Redemption(at: nat, user: UserId, token: TokenId, key: Key, input: Input, delivery: Delivery)

  datatype IssueInput = IssueInput(purpose: Purpose, expires: nat, userName: string)

  datatype Bundle = Bundle(code: Code, input: IssueInput, revoked: Option<nat>, redemption: Option<Redemption>)

  datatype User = User(name: string, disabled: bool)
  datatype Token = Token(user: UserId, bearer: string, expires: nat, revoked: bool, userScoped: bool)

  /** The refusals a redemption audits, finer than what the caller sees. */
  datatype Reason = Unknown | WrongHub | RetentionExpired | KeyConflict | CredentialInactive | Revoked | Expired | WrongPurpose

  datatype Audit = Issued(b: BundleId) | RevokedBundle(b: BundleId) | RevokeRefused(b: BundleId)
    | Redeemed(b: BundleId, u: UserId, t: TokenId) | Replayed(b: BundleId) | RedeemRefused(of: Option<BundleId>, r: Reason)

  /** The tables; codes is the unique index on the code digest. */
  datatype Ledger = Ledger(
    hub: HubId,
    bundles: map<BundleId, Bundle>,
    codes: map<Code, BundleId>,
    users: map<UserId, User>,
    tokens: map<TokenId, Token>,
    audit: seq<Audit>)
  {
    function Note(a: Audit): Ledger { this.(audit := audit + [a]) }
    function SameTables(other: Ledger): bool { this.(audit := []) == other.(audit := []) }
  }

  // ---- issuing and revoking ----

  datatype IssueAnswer = IssueOk | BundleExists | IdempotencyConflict | InvalidIssue

  predicate ValidInput(now: Time, i: IssueInput, nameOk: bool) {
    && i.purpose == NewUser
    && now < i.expires * SECOND <= now + MAX_LIFE
    && (i.userName != "" ==> nameOk)
  }

  /** `IssueEnrollment`; shaped is the verdict on the bundle ID's form and
      nameOk the one on the user name. code is the fresh subcode. */
  function Issue(s: Ledger, now: Time, b: BundleId, i: IssueInput, shaped: bool, nameOk: bool, code: Code): (Ledger, IssueAnswer) {
    if !shaped then (s, InvalidIssue)
    else if b in s.bundles then (s, if s.bundles[b].input == i then BundleExists else IdempotencyConflict)
    else if !ValidInput(now, i, nameOk) then (s, InvalidIssue)
    else (s.(bundles := s.bundles[b := Bundle(code, i, None, None)], codes := s.codes[code := b]).Note(Issued(b)), IssueOk)
  }

  datatype State = StIssued | StRedeemed | StRevoked | StExpired

  /** A bundle's state is computed when it is read. */
  function StateOf(now: Time, b: Bundle): State {
    if b.redemption.Some? then StRedeemed
    else if b.revoked.Some? then StRevoked
    else if now >= b.input.expires * SECOND then StExpired
    else StIssued
  }

  datatype RevokeAnswer = NotFound | RevokeSeen(state: State) | AlreadyRedeemed

  function Revoke(s: Ledger, now: Time, b: BundleId): (Ledger, RevokeAnswer) {
    if b !in s.bundles then (s, NotFound)
    else
      match StateOf(now, s.bundles[b])
      case StIssued =>
        (s.(bundles := s.bundles[b := s.bundles[b].(revoked := Some(Seconds(now)))]).Note(RevokedBundle(b)), RevokeSeen(StRevoked))
      case StRedeemed => (s.Note(RevokeRefused(b)), AlreadyRedeemed)
      case st => (s, RevokeSeen(st))
  }

  // ---- redeeming ----

  datatype Request = Request(hub: HubId, code: Code, installation: string, key: Key) {
    function Digest(): Input { Input(hub, installation, key) }
  }

  /** The identifiers and the secret a first redemption draws. */
  datatype Minted = Minted(user: UserId, token: TokenId, bearer: string)

  datatype Answer =
    | Success(bundle: BundleId, replayed: bool, user: UserId, token: TokenId, delivery: Delivery, at: nat)
    | Invalid
    | Conflict
    | Malformed

  /** Every refusal reaches the caller as one of two codes. */
  function Shown(r: Reason): Answer { if r == KeyConflict then Conflict else Invalid }

  function Refuse(s: Ledger, b: Option<BundleId>, r: Reason): (Ledger, Answer) {
    (s.Note(RedeemRefused(b, r)), Shown(r))
  }

  predicate TokenActive(s: Ledger, now: Time, t: TokenId) {
    && t in s.tokens && !s.tokens[t].revoked && now < s.tokens[t].expires * SECOND
    && s.tokens[t].user in s.users && !s.users[s.tokens[t].user].disabled
  }

  function Replay(s: Ledger, now: Time, req: Request, b: BundleId, r: Redemption): (Ledger, Answer) {
    if now >= r.at * SECOND + RETENTION then Refuse(s, Some(b), RetentionExpired)
    else if r.key != req.key || r.input != req.Digest() then Refuse(s, Some(b), KeyConflict)
    else if !TokenActive(s, now, r.token) then Refuse(s, Some(b), CredentialInactive)
    else (s.Note(Replayed(b)), Success(b, true, r.user, r.token, r.delivery, r.at))
  }

  function Mint(s: Ledger, now: Time, req: Request, b: BundleId, m: Minted): (Ledger, Answer)
    requires b in s.bundles
  {
    var row := s.bundles[b];
    var at := Seconds(now);
    var name := if row.input.userName == "" then req.installation else row.input.userName;
    var delivery := Sealed(req.key, Aad(s.hub, b, req.key, m.user, m.token), Plain(m.bearer, m.user, m.token, s.hub));
    var redemption := Redemption(at, m.user, m.token, req.key, req.Digest(), delivery);
    var s' := s.(
      users := s.users[m.user := User(name, false)],
      tokens := s.tokens[m.token := Token(m.user, m.bearer, at + TOKEN_LIFE, false, true)],
      bundles := s.bundles[b := row.(redemption := Some(redemption))]);
    (s'.Note(Redeemed(b, m.user, m.token)), Success(b, false, m.user, m.token, delivery, at))
  }

  /** `RedeemEnrollment`; shaped is the verdict on the form of the request's
      key, label, suite and public key. */
  function Redeem(s: Ledger, now: Time, req: Request, shaped: bool, m: Minted): (Ledger, Answer) {
    if !shaped then (s, Malformed)
    else if req.code !in s.codes || s.codes[req.code] !in s.bundles then Refuse(s, None, Unknown)
    else
      var b := s.codes[req.code];
      var row := s.bundles[b];
      if req.hub != s.hub then Refuse(s, Some(b), WrongHub)
      else if row.redemption.Some? then Replay(s, now, req, b, row.redemption.value)
      else if row.revoked.Some? then Refuse(s, Some(b), Revoked)
      else if now >= row.input.expires * SECOND then Refuse(s, Some(b), Expired)
      else if row.input.purpose != NewUser then Refuse(s, Some(b), WrongPurpose)
      else Mint(s, now, req, b, m)
  }
}
