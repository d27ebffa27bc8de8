/** What the enrollment ledger answers, and what it changes, said in terms of the
    rows and the clock; and what an answer means for every later run. */
module EnrollmentAnswers {
  import opened Options
  import opened EnrollmentLedger
  import opened EnrollmentRuns

  /** Everything but the audit is as it was. */
  predicate Unchanged(s: Ledger, s': Ledger) { s' == s.(audit := s'.audit) }

  // ---- issuing ----

  predicate GoodInput(now: Time, i: IssueInput, nameOk: bool) {
    && i.purpose == NewUser && now < i.expires * 1_000_000_000 <= now + 72 * 3600 * 1_000_000_000
    && (i.userName == "" || nameOk)
  }

  /** A repeated bundle ID is judged by its input alone, whatever the time; a new
      one by its form, purpose, life and name. */
  lemma IssueAnswersExactly(s: Ledger, now: Time, b: BundleId, i: IssueInput, shaped: bool, nameOk: bool, code: Code)
    ensures var (s', a) := Issue(s, now, b, i, shaped, nameOk, code);
            && (a == BundleExists <==> shaped && b in s.bundles && s.bundles[b].input == i)
            && (a == IdempotencyConflict <==> shaped && b in s.bundles && s.bundles[b].input != i)
            && (a == IssueOk <==> shaped && b !in s.bundles && GoodInput(now, i, nameOk))
            && (a != IssueOk ==> s' == s)
            && (a == IssueOk ==>
                  && s'.audit == s.audit + [Issued(b)]
                  && s'.bundles == s.bundles[b := Bundle(code, i, None, None)] && s'.codes == s.codes[code := b]
                  && s'.users == s.users && s'.tokens == s.tokens && s'.hub == s.hub)
  {
  }

  /** What was issued can be redeemed at once, once. */
  lemma IssuedCanBeRedeemed(s: Ledger, now: Time, b: BundleId, i: IssueInput, nameOk: bool, code: Code, req: Request, m: Minted)
    requires b !in s.bundles && GoodInput(now, i, nameOk) && req.hub == s.hub && req.code == code
    ensures var s' := Issue(s, now, b, i, true, nameOk, code).0;
            var (s'', a) := Redeem(s', now, req, true, m);
            && a.Success? && !a.replayed && a.bundle == b
            && !(Redeem(s'', now, req.(key := req.key + 1), true, m).1.Success?)
  {
  }

  /** In every later state a repeat is classified the same way, and changes
      nothing. */
  lemma RepeatIsClassified(w: World, ops: seq<Op>, w': World, b: BundleId, now: Time, i: IssueInput, nameOk: bool, code: Code)
    requires Sound(w.s) && Truthful(w) && b in w.s.bundles && Reaches(w, ops, w')
    ensures Issue(w'.s, now, b, i, true, nameOk, code) ==
            (w'.s, if w.s.bundles[b].input == i then BundleExists else IdempotencyConflict)
  {
    RunIsSound(w, ops, w');
  }

  // ---- revoking ----

  /** An unredeemed bundle before its expiry is revoked from now on; any other is
      left as it is, and said to be what it is. */
  lemma RevokeAnswersExactly(s: Ledger, now: Time, b: BundleId)
    ensures var (s', a) := Revoke(s, now, b);
            if b !in s.bundles then a == NotFound && s' == s
            else
              var row := s.bundles[b];
              if row.redemption.Some? then a == AlreadyRedeemed && s' == s.(audit := s.audit + [RevokeRefused(b)])
              else if row.revoked.Some? then a == RevokeSeen(StRevoked) && s' == s
              else if now >= row.input.expires * 1_000_000_000 then a == RevokeSeen(StExpired) && s' == s
              else
                && a == RevokeSeen(StRevoked)
                && s' == s.(bundles := s.bundles[b := row.(revoked := Some(now / 1_000_000_000))], audit := s.audit + [RevokedBundle(b)])
  {
  }

  lemma RevokedRowStays(w: World, ops: seq<Op>, w': World, b: BundleId)
    requires Sound(w.s) && Truthful(w) && b in w.s.bundles && w.s.bundles[b].revoked.Some? && Reaches(w, ops, w')
    ensures Sound(w'.s) && b in w'.s.bundles && w'.s.bundles[b] == w.s.bundles[b] && w'.s.hub == w.s.hub
  {
    RunIsSound(w, ops, w');
  }

  /** Once a revocation was answered, the bundle is revoked at every later time of
      every run, and its code is refused whoever sends it and whenever, minting
      nothing. */
  lemma RevokedCodeIsDead(w: World, now: Time, b: BundleId, ops: seq<Op>, w': World, later: Time, req: Request, m: Minted)
    requires Sound(w.s) && Truthful(w) && Revoke(w.s, now, b).1 == RevokeSeen(StRevoked)
    requires Reaches(Step(w, DoRevoke(now, b)), ops, w')
    requires b in w.s.bundles && req.code == w.s.bundles[b].code
    ensures b in w'.s.bundles && StateOf(later, w'.s.bundles[b]) == StRevoked
    ensures var (s', a) := Redeem(w'.s, later, req, true, m); a == Invalid && Unchanged(w'.s, s')
  {
    var w1 := Step(w, DoRevoke(now, b));
    RevokeAnswersExactly(w.s, now, b);
    assert Reaches(w, [DoRevoke(now, b)], w1) by { assert [DoRevoke(now, b)][1..] == []; }
    RunIsSound(w, [DoRevoke(now, b)], w1);
    RevokedRowStays(w1, ops, w', b);
    assert w'.s.codes[req.code] == b;
  }

  /** A code that has expired unredeemed is refused from then on as well. */
  lemma ExpiredCodeIsRefused(s: Ledger, now: Time, req: Request, m: Minted)
    requires Sound(s) && req.code in s.codes
    requires var row := s.bundles[s.codes[req.code]]; row.redemption.None? && now >= row.input.expires * 1_000_000_000
    ensures var (s', a) := Redeem(s, now, req, true, m); a == Invalid && Unchanged(s, s')
  {
  }

  // ---- redeeming ----

  /** The token of a row and the user it belongs to, as the tables have them. */
  predicate Alive(s: Ledger, now: Time, t: TokenId) {
    && t in s.tokens && s.tokens[t].revoked == false && now < s.tokens[t].expires * 1_000_000_000
    && s.tokens[t].user in s.users && s.users[s.tokens[t].user].disabled == false
  }

  predicate Known(s: Ledger, req: Request) { req.code in s.codes && s.codes[req.code] in s.bundles && req.hub == s.hub }

  /** The request repeats the one that redeemed. */
  predicate Repeats(req: Request, r: Redemption) {
    req.key == r.key && r.input == Input(req.hub, req.installation, req.key)
  }

  /** When a request is answered how: five answers, four conditions on the row of
      its code, and nothing else. */
  lemma RedeemAnswersBy(s: Ledger, now: Time, req: Request, shaped: bool, m: Minted)
    ensures var a := Redeem(s, now, req, shaped, m).1;
            && (a == Malformed <==> !shaped)
            && (a.Success? && !a.replayed <==>
                && shaped && Known(s, req)
                && var row := s.bundles[s.codes[req.code]];
                   && row.redemption.None? && row.revoked.None? && now < row.input.expires * 1_000_000_000
                   && row.input.purpose == NewUser)
            && (a.Success? && a.replayed <==>
                && shaped && Known(s, req)
                && var row := s.bundles[s.codes[req.code]];
                   && row.redemption.Some? && now < row.redemption.value.at * 1_000_000_000 + 3600 * 1_000_000_000
                   && Repeats(req, row.redemption.value) && Alive(s, now, row.redemption.value.token))
            && (a == Conflict <==>
                && shaped && Known(s, req)
                && var row := s.bundles[s.codes[req.code]];
                   && row.redemption.Some? && now < row.redemption.value.at * 1_000_000_000 + 3600 * 1_000_000_000
                   && !Repeats(req, row.redemption.value))
            && (a == Malformed || a == Conflict || a == Invalid || a.Success?)
  {
  }

  /** What is wrong with a request, in terms of the rows and the clock: the row of
      its code, then whether it was redeemed, and only then the rest. */
  predicate Wrong(s: Ledger, now: Time, req: Request, r: Reason) {
    match r
    case Unknown => !(req.code in s.codes && s.codes[req.code] in s.bundles)
    case WrongHub => req.code in s.codes && s.codes[req.code] in s.bundles && req.hub != s.hub
    case RetentionExpired =>
      && Known(s, req) && var row := s.bundles[s.codes[req.code]];
      row.redemption.Some? && now >= row.redemption.value.at * 1_000_000_000 + 3600 * 1_000_000_000
    case KeyConflict =>
      && Known(s, req) && var row := s.bundles[s.codes[req.code]];
      && row.redemption.Some? && now < row.redemption.value.at * 1_000_000_000 + 3600 * 1_000_000_000
      && !Repeats(req, row.redemption.value)
    case CredentialInactive =>
      && Known(s, req) && var row := s.bundles[s.codes[req.code]];
      && row.redemption.Some? && now < row.redemption.value.at * 1_000_000_000 + 3600 * 1_000_000_000
      && Repeats(req, row.redemption.value) && !Alive(s, now, row.redemption.value.token)
    case Revoked => Known(s, req) && var row := s.bundles[s.codes[req.code]]; row.redemption.None? && row.revoked.Some?
    case Expired =>
      && Known(s, req) && var row := s.bundles[s.codes[req.code]];
      row.redemption.None? && row.revoked.None? && now >= row.input.expires * 1_000_000_000
    case WrongPurpose =>
      && Known(s, req) && var row := s.bundles[s.codes[req.code]];
      && row.redemption.None? && row.revoked.None? && now < row.input.expires * 1_000_000_000
      && row.input.purpose != NewUser
  }

  /** The bundle a code leads to, if any. */
  function BundleOf(s: Ledger, req: Request): Option<BundleId> {
    if req.code in s.codes && s.codes[req.code] in s.bundles then Some(s.codes[req.code]) else None
  }

  predicate Noted(s: Ledger, s': Ledger, a: Audit) { |s'.audit| == |s.audit| + 1 && s'.audit == s.audit + [a] }

  lemma NotedOnce(s: Ledger, s': Ledger, a: Audit, b: Audit)
    requires Noted(s, s', a) && Noted(s, s', b)
    ensures a == b
  {
    assert a == s'.audit[|s.audit|] == b;
  }

  lemma WrongIsRefused(s: Ledger, now: Time, req: Request, m: Minted, r: Reason)
    requires Wrong(s, now, req, r)
    ensures var (s', a) := Redeem(s, now, req, true, m);
            && Noted(s, s', RedeemRefused(BundleOf(s, req), r)) && a == (if r == KeyConflict then Conflict else Invalid)
  {
  }

  lemma RefusedFor(s: Ledger, now: Time, req: Request, m: Minted) returns (r: Reason)
    requires !Redeem(s, now, req, true, m).1.Success?
    ensures Wrong(s, now, req, r)
  {
    if BundleOf(s, req).None? { return Unknown; }
    var row := s.bundles[s.codes[req.code]];
    if req.hub != s.hub { return WrongHub; }
    if row.redemption.Some? {
      r := if now >= row.redemption.value.at * SECOND + RETENTION then RetentionExpired
           else if Repeats(req, row.redemption.value) then CredentialInactive else KeyConflict;
    } else {
      r := if row.revoked.Some? then Revoked else if now >= row.input.expires * SECOND then Expired else WrongPurpose;
    }
  }

  /** A request is refused exactly when something is wrong with it. It leaves one
      entry, with what is wrong and the bundle if its code is known, while the
      caller learns only whether its key conflicts. A success is audited too. */
  lemma RefusalAuditsExactly(s: Ledger, now: Time, req: Request, m: Minted, r: Reason)
    ensures var (s', a) := Redeem(s, now, req, true, m);
            && (Wrong(s, now, req, r) <==> !a.Success? && Noted(s, s', RedeemRefused(BundleOf(s, req), r)))
            && (Wrong(s, now, req, r) ==> a == (if r == KeyConflict then Conflict else Invalid))
            && (a.Success? ==> Noted(s, s', if a.replayed then Replayed(a.bundle) else Redeemed(a.bundle, a.user, a.token)))
  {
    if Wrong(s, now, req, r) { WrongIsRefused(s, now, req, m, r); }
    var (s', a) := Redeem(s, now, req, true, m);
    if !a.Success? {
      var why := RefusedFor(s, now, req, m);
      WrongIsRefused(s, now, req, m, why);
      if Noted(s, s', RedeemRefused(BundleOf(s, req), r)) {
        NotedOnce(s, s', RedeemRefused(BundleOf(s, req), r), RedeemRefused(BundleOf(s, req), why));
      }
    }
  }

  /** What a first redemption adds: a user of the name asked for, else of the
      installation's; its token for a year; and a delivery that only the request's
      key opens. */
  lemma MintsExactly(s: Ledger, now: Time, req: Request, m: Minted)
    requires var a := Redeem(s, now, req, true, m).1; a.Success? && !a.replayed
    ensures var (s', a) := Redeem(s, now, req, true, m);
            var (b, at) := (s.codes[req.code], now / 1_000_000_000);
            var name := s.bundles[b].input.userName;
            && s'.users == s.users[m.user := User(if name == "" then req.installation else name, false)]
            && s'.tokens == s.tokens[m.token := Token(m.user, m.bearer, at + 365 * 24 * 3600, false, true)]
            && s'.codes == s.codes && s'.hub == s.hub && a.bundle == b && a.user == m.user && a.token == m.token && a.at == at
            && s'.bundles == s.bundles[b := s.bundles[b].(redemption :=
                 Some(Redemption(at, m.user, m.token, req.key, Input(req.hub, req.installation, req.key), a.delivery)))]
            && forall key, aad :: Open(key, aad, a.delivery) ==
                 if key == req.key && aad == Aad(s.hub, b, req.key, m.user, m.token) then Some(Plain(m.bearer, m.user, m.token, s.hub))
                 else None
  {
  }

  lemma {:induction false} RevokedTokenStays(w: World, ops: seq<Op>, w': World, t: TokenId)
    requires t in w.s.tokens && w.s.tokens[t].revoked && Reaches(w, ops, w')
    ensures t in w'.s.tokens && w'.s.tokens[t].revoked
    decreases |ops|
  {
    if ops != [] {
      RevokedInStep(w.s, ops[0], t);
      RevokedTokenStays(Step(w, ops[0]), ops[1..], w', t);
    }
  }

  lemma RevokedInStep(s: Ledger, op: Op, t: TokenId)
    requires t in s.tokens && s.tokens[t].revoked && Fresh(s, op)
    ensures t in Tables(s, op).tokens && Tables(s, op).tokens[t].revoked
  {
  }

  /** A redeemed row is as it was after every run. */
  lemma RedeemedRowStays(w: World, ops: seq<Op>, w': World, b: BundleId)
    requires Sound(w.s) && Truthful(w) && b in w.s.bundles && w.s.bundles[b].redemption.Some? && Reaches(w, ops, w')
    ensures Sound(w'.s) && Truthful(w') && b in w'.s.bundles && w'.s.bundles[b] == w.s.bundles[b]
  {
    RunIsSound(w, ops, w');
  }

  lemma DeadTokenRefuses(s: Ledger, b: BundleId, later: Time, req: Request, m: Minted)
    requires Sound(s) && b in s.bundles && req.code == s.bundles[b].code && s.bundles[b].redemption.Some?
    requires var t := s.bundles[b].redemption.value.token; t in s.tokens && s.tokens[t].revoked
    ensures !Redeem(s, later, req, true, m).1.Success?
  {
    assert s.codes[req.code] == b;
  }

  /** Once a minted token is revoked, no request on its code ever succeeds again. */
  lemma RevokedTokenNeverReplays(w: World, t: TokenId, ops: seq<Op>, w': World, b: BundleId, later: Time, req: Request, m: Minted)
    requires Sound(w.s) && Truthful(w) && Reaches(Step(w, RevokeToken(t)), ops, w') && b in w.s.bundles
    requires w.s.bundles[b].redemption.Some? && w.s.bundles[b].redemption.value.token == t && req.code == w.s.bundles[b].code
    ensures !Redeem(w'.s, later, req, true, m).1.Success?
  {
    var w1 := Step(w, RevokeToken(t));
    assert Backed(w.s, b, w.s.bundles[b].redemption.value);
    assert Reaches(w, [RevokeToken(t)], w1) by { assert [RevokeToken(t)][1..] == []; }
    RedeemedRowStays(w, [RevokeToken(t)], w1, b);
    RedeemedRowStays(w1, ops, w', b);
    RevokedTokenStays(w1, ops, w', t);
    DeadTokenRefuses(w'.s, b, later, req, m);
  }
}
