/** The enrollment ledger as a program: one object whose tables the
    transactions of internal/access/enrollments.go and enrollment_redeem.go
    update in place, each proved to be the transaction of EnrollmentLedger. */
module EnrollmentStore {
  import opened Options
  import opened EnrollmentLedger

  class Store {
    const hub: HubId
    var bundles: map<BundleId, Bundle>
    var codes: map<Code, BundleId>
    var users: map<UserId, User>
    var tokens: map<TokenId, Token>
    var trail: seq<Audit>

    constructor (hub: HubId)
      ensures Now() == Ledger(hub, map[], map[], map[], map[], [])
    {
      this.hub := hub;
      bundles, codes, users, tokens, trail := map[], map[], map[], map[], [];
    }

    ghost function Now(): Ledger
      reads this
    {
      Ledger(hub, bundles, codes, users, tokens, trail)
    }

    method IssueEnrollment(now: Time, b: BundleId, i: IssueInput, shaped: bool, nameOk: bool, code: Code) returns (a: IssueAnswer)
      modifies this
      ensures (Now(), a) == Issue(old(Now()), now, b, i, shaped, nameOk, code)
    {
      if !shaped { return InvalidIssue; }
      if b in bundles {
        if bundles[b].input == i { return BundleExists; }
        return IdempotencyConflict;
      }
      if i.purpose != NewUser || i.expires * SECOND <= now || i.expires * SECOND > now + MAX_LIFE || (i.userName != "" && !nameOk) {
        return InvalidIssue;
      }
      bundles := bundles[b := Bundle(code, i, None, None)];
      codes := codes[code := b];
      trail := trail + [Issued(b)];
      return IssueOk;
    }

    method RevokeEnrollment(now: Time, b: BundleId) returns (a: RevokeAnswer)
      modifies this
      ensures (Now(), a) == Revoke(old(Now()), now, b)
    {
      if b !in bundles { return NotFound; }
      var st := StateOf(now, bundles[b]);
      a := RevokeSeen(st);
      if st == StIssued {
        bundles := bundles[b := bundles[b].(revoked := Some(Seconds(now)))];
        trail := trail + [RevokedBundle(b)];
        a := RevokeSeen(StRevoked);
      } else if st == StRedeemed {
        trail := trail + [RevokeRefused(b)];
        a := AlreadyRedeemed;
      }
    }

    /** A refusal rolls the transaction back and is audited in its own. */
    method RedeemEnrollment(now: Time, req: Request, shaped: bool, m: Minted) returns (a: Answer)
      modifies this
      ensures (Now(), a) == Redeem(old(Now()), now, req, shaped, m)
    {
      if !shaped { return Malformed; }
      var refused: Option<Reason>, b: Option<BundleId>;
      a, refused, b := Transact(now, req, m);
      if refused.Some? {
        trail := trail + [RedeemRefused(b, refused.value)];
        a := if refused.value == KeyConflict then Conflict else Invalid;
      }
    }

    /** The transaction: an answer with the tables it leaves, or a refusal and
        no change. */
    method Transact(now: Time, req: Request, m: Minted) returns (a: Answer, refused: Option<Reason>, b: Option<BundleId>)
      modifies this
      ensures refused.None? ==> (Now(), a) == Redeem(old(Now()), now, req, true, m)
      ensures refused.Some? ==> Now() == old(Now()) && Refuse(Now(), b, refused.value) == Redeem(Now(), now, req, true, m)
    {
      a, refused, b := Invalid, None, None;
      if req.code !in codes || codes[req.code] !in bundles { return a, Some(Unknown), b; }
      var id := codes[req.code];
      var row := bundles[id];
      b := Some(id);
      if req.hub != hub { return a, Some(WrongHub), b; }
      if row.redemption.Some? {
        a, refused := ReplayRedemption(now, req, id, row.redemption.value);
        return;
      }
      if row.revoked.Some? { return a, Some(Revoked), b; }
      if now >= row.input.expires * SECOND { return a, Some(Expired), b; }
      if row.input.purpose != NewUser { return a, Some(WrongPurpose), b; }
      var name := row.input.userName;
      if name == "" { name := req.installation; }
      var at := Seconds(now);
      users := users[m.user := User(name, false)];
      tokens := tokens[m.token := Token(m.user, m.bearer, at + TOKEN_LIFE, false, true)];
      var delivery := Sealed(req.key, Aad(hub, id, req.key, m.user, m.token), Plain(m.bearer, m.user, m.token, hub));
      bundles := bundles[id := row.(redemption := Some(Redemption(at, m.user, m.token, req.key, req.Digest(), delivery)))];
      trail := trail + [Redeemed(id, m.user, m.token)];
      a := Success(id, false, m.user, m.token, delivery, at);
    }

    method ReplayRedemption(now: Time, req: Request, b: BundleId, r: Redemption) returns (a: Answer, refused: Option<Reason>)
      modifies this`trail
      ensures refused.None? ==> (Now(), a) == Replay(old(Now()), now, req, b, r)
      ensures refused.Some? ==> Now() == old(Now()) && Refuse(Now(), Some(b), refused.value) == Replay(Now(), now, req, b, r)
    {
      a, refused := Invalid, None;
      if now >= r.at * SECOND + RETENTION { return a, Some(RetentionExpired); }
      if r.key != req.key || r.input != req.Digest() { return a, Some(KeyConflict); }
      if r.token !in tokens || tokens[r.token].revoked || now >= tokens[r.token].expires * SECOND
         || tokens[r.token].user !in users || users[tokens[r.token].user].disabled
      {
        return a, Some(CredentialInactive);
      }
      trail := trail + [Replayed(b)];
      a := Success(b, true, r.user, r.token, r.delivery, r.at);
    }
  }
}
