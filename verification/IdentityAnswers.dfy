/** What the identity proof ledger answers, and what it changes, said in terms of
    the tables and the clock (milliseconds; the store's expiries are seconds). */
module IdentityAnswers {
  import opened IdentityLedger
  import opened IdentityRuns

  // ---- conditions, on the rows ----

  /** The token is unrevoked and unexpired, and its user is enabled. */
  predicate Alive(s: Ledger, user: UserId, token: TokenId, now: Time) {
    && token in s.tokens && s.tokens[token].user == user && s.tokens[token].revoked == false
    && s.tokens[token].expires > now / 1000 && user !in s.disabledUsers
  }

  predicate Installation(s: Ledger, token: TokenId) { token in s.tokens && s.tokens[token].userScoped }

  /** The peer's credential is its own, for that operation, unrevoked and unexpired,
      and the peer is enabled. */
  predicate Authentic(s: Ledger, p: PeerIdentity, now: Time) {
    && p.cred in s.creds && s.creds[p.cred].service == p.service && s.creds[p.cred].op == p.op
    && s.creds[p.cred].revoked == false && s.creds[p.cred].expires > now / 1000
    && p.service in s.peers && s.peers[p.service].disabled == false
  }

  /** Nothing was redeemed under the peer's request key in the last fifteen minutes. */
  predicate NewKey(s: Ledger, p: PeerIdentity, key: RequestKey, now: Time) {
    (p.service, key) !in s.redemptions || s.redemptions[(p.service, key)].at + 15 * 60 * 1000 < now
  }

  /** The receipt is stored, live and unexpired, and bound to this peer, challenge
      and hub. */
  predicate Bound(s: Ledger, p: PeerIdentity, req: Request, now: Time) {
    && req.receipt in s.receipts
    && var x := s.receipts[req.receipt];
       && x.state == Live && x.expires > now
       && x.service == p.service && x.challenge == req.challenge && x.hub == req.hub
  }

  // ---- redeeming ----

  /** A new request key is accepted exactly when the peer may redeem, the receipt
      is bound to it, and the receipt's token is still alive; and each failure has
      its own refusal, in this order. */
  lemma RedeemAnswersBy(s: Ledger, now: Time, p: PeerIdentity, req: Request, shaped: bool, id: string)
    requires NewKey(s, p, req.key, now)
    ensures var a := RedeemProof(s, now, p, req, shaped, id).1;
            && (a == PeerForbidden <==> p.op != RedeemOp)
            && (a == InvalidRequest <==> p.op == RedeemOp && !shaped)
            && (a == PeerUnauthenticated <==> p.op == RedeemOp && shaped && !Authentic(s, p, now))
            && (a == ProofInvalid <==> p.op == RedeemOp && shaped && Authentic(s, p, now) && !Bound(s, p, req, now))
            && (a == CredentialInactive <==>
                && p.op == RedeemOp && shaped && Authentic(s, p, now) && Bound(s, p, req, now)
                && var x := s.receipts[req.receipt]; !(Alive(s, x.user, x.token, now) && Installation(s, x.token)))
            && (a.Accepted? <==>
                && p.op == RedeemOp && shaped && Authentic(s, p, now) && Bound(s, p, req, now)
                && var x := s.receipts[req.receipt]; Alive(s, x.user, x.token, now) && Installation(s, x.token))
  {
    var t := Prune(s, now);
    if req.receipt in s.receipts && s.receipts[req.receipt].expires > now { assert t.receipts[req.receipt] == s.receipts[req.receipt]; }
  }

  /** A key used in the last fifteen minutes is answered from its record. */
  lemma RepeatAnswersBy(s: Ledger, now: Time, p: PeerIdentity, req: Request, id: string)
    requires !NewKey(s, p, req.key, now) && p.op == RedeemOp && Authentic(s, p, now)
    ensures var (s', a) := RedeemProof(s, now, p, req, true, id);
            var rec := s.redemptions[(p.service, req.key)];
            && s' == Prune(s, now)
            && (a == IdempotencyConflict <==> rec.input != (req.hub, req.challenge, req.receipt))
            && (a == CredentialInactive <==>
                  rec.input == (req.hub, req.challenge, req.receipt)
                  && !(Alive(s, rec.user, rec.token, now) && Installation(s, rec.token)))
            && (a == Accepted(rec, true) <==>
                  rec.input == (req.hub, req.challenge, req.receipt) && Alive(s, rec.user, rec.token, now) && Installation(s, rec.token))
  {
    assert Prune(s, now).redemptions[(p.service, req.key)] == s.redemptions[(p.service, req.key)];
  }

  /** What an accepted redemption records, on the tables without their old rows:
      the receipt as redeemed, and its identity under the request key. */
  lemma AcceptedRecords(s: Ledger, now: Time, p: PeerIdentity, req: Request, id: string)
    requires var a := RedeemProof(s, now, p, req, true, id).1; a.Accepted? && !a.replayed
    ensures var (s', a) := RedeemProof(s, now, p, req, true, id);
            && req.receipt in s.receipts
            && var (x, t) := (s.receipts[req.receipt], Prune(s, now));
               && a.rec == Redemption((req.hub, req.challenge, req.receipt), id, req.receipt, x.hub, x.challenge, x.user, x.token, now)
               && s' == t.(receipts := t.receipts[req.receipt := x.(state := Redeemed)],
                           redemptions := t.redemptions[(p.service, req.key) := a.rec])
  {
  }

  /** Pruning keeps exactly the redemptions of the last fifteen minutes, and the
      receipts that expired in them or have yet to. */
  lemma PruneKeepsExactly(s: Ledger, now: Time)
    ensures var t := Prune(s, now);
            && t == s.(redemptions := t.redemptions, receipts := t.receipts)
            && (forall k :: k in t.redemptions <==> k in s.redemptions && s.redemptions[k].at + 15 * 60 * 1000 >= now)
            && (forall k :: k in t.redemptions ==> t.redemptions[k] == s.redemptions[k])
            && (forall r :: r in t.receipts <==> r in s.receipts && s.receipts[r].expires + 15 * 60 * 1000 >= now)
            && (forall r :: r in t.receipts ==> t.receipts[r] == s.receipts[r])
  {
  }

  /** A refused request leaves no trace but pruning. */
  lemma RefusalOnlyPrunes(s: Ledger, now: Time, p: PeerIdentity, req: Request, shaped: bool, id: string)
    requires !RedeemProof(s, now, p, req, shaped, id).1.Accepted?
    ensures var s' := RedeemProof(s, now, p, req, shaped, id).0; s' == s || s' == Prune(s, now)
  {
  }

  // ---- issuing receipts ----

  /** The token's receipts of the last minute. */
  function LastMinute(s: Ledger, token: TokenId, now: Time): set<Secret> {
    set r | r in s.receipts && s.receipts[r].token == token && now < s.receipts[r].created + 60 * 1000
  }

  predicate PeerServes(s: Ledger, service: ServiceId, hub: HubId) {
    service in s.peers && s.peers[service].hub == hub && hub == s.hub && s.peers[service].disabled == false
  }

  /** A receipt is issued exactly when the token is alive and an installation's,
      the peer serves this hub, and fewer than ten were issued in the last minute;
      each failure has its own refusal, in this order. */
  lemma IssueAnswersBy(
    s: Ledger, now: Time, user: UserId, token: TokenId, service: ServiceId, hub: HubId, c: Challenge, shaped: bool, secret: Secret)
    ensures var a := IssueProof(s, now, user, token, service, hub, c, shaped, secret).1;
            var (alive, inst, serves) := (Alive(s, user, token, now), Installation(s, token), PeerServes(s, service, hub));
            && (a == InvalidProofRequest <==> !shaped)
            && (a == Denied <==> shaped && !alive)
            && (a == ScopeForbidden <==> shaped && alive && !inst)
            && (a == PeerUnknown <==> shaped && alive && inst && !serves)
            && (a == RateLimited <==> shaped && alive && inst && serves && |LastMinute(s, token, now)| >= 10)
            && (a == Issued <==> shaped && alive && inst && serves && |LastMinute(s, token, now)| < 10)
  {
    assert LastMinute(s, token, now) == Recent(s, token, now);
  }

  /** What is issued: one live receipt for a minute, and no other live one of its
      token, peer and challenge. */
  lemma IssuedExactly(
    s: Ledger, now: Time, user: UserId, token: TokenId, service: ServiceId, hub: HubId, c: Challenge, secret: Secret)
    requires IssueProof(s, now, user, token, service, hub, c, true, secret).1 == Issued && secret !in s.receipts
    ensures var (s', t) := (IssueProof(s, now, user, token, service, hub, c, true, secret).0, Prune(s, now));
            && s' == t.(receipts := s'.receipts) && s'.receipts.Keys == t.receipts.Keys + {secret}
            && s'.receipts[secret] == Receipt(service, hub, c, user, token, now, now + 60 * 1000, Live)
            && forall r :: r in t.receipts ==>
                 var x := t.receipts[r];
                 s'.receipts[r] == if x.state == Live && x.token == token && x.service == service && x.challenge == c
                                   then x.(state := Superseded) else x
  {
  }

  /** A refused request changes nothing. */
  lemma RefusedIssueChangesNothing(
    s: Ledger, now: Time, user: UserId, token: TokenId, service: ServiceId, hub: HubId, c: Challenge, shaped: bool, secret: Secret)
    requires IssueProof(s, now, user, token, service, hub, c, shaped, secret).1 != Issued
    ensures IssueProof(s, now, user, token, service, hub, c, shaped, secret).0 == s
  {
  }

  // ---- the round trip ----

  /** A receipt issued and redeemed at once by its peer is accepted, with the
      identity that drew it; after its minute, or once its token is revoked or its
      user disabled, it is not. */
  lemma IssuedIsRedeemed(
    s: Ledger, now: Time, user: UserId, token: TokenId, hub: HubId, c: Challenge, secret: Secret,
    later: Time, p: PeerIdentity, key: RequestKey, id: string)
    requires IssueProof(s, now, user, token, p.service, hub, c, true, secret).1 == Issued && secret !in s.receipts
    requires p.op == RedeemOp && Authentic(s, p, later) && (p.service, key) !in s.redemptions && now <= later
    ensures var s1 := IssueProof(s, now, user, token, p.service, hub, c, true, secret).0;
            var req := Request(hub, c, secret, key);
            var a := RedeemProof(s1, later, p, req, true, id).1;
            && (a.Accepted? <==> later < now + 60 * 1000 && s.tokens[token].expires > later / 1000)
            && (a.Accepted? ==> !a.replayed && a.rec.user == user && a.rec.token == token && a.rec.challenge == c && a.rec.hub == hub)
            && !RedeemProof(s1.(tokens := s1.tokens[token := s1.tokens[token].(revoked := true)]), later, p, req, true, id).1.Accepted?
            && !RedeemProof(s1.(disabledUsers := s1.disabledUsers + {user}), later, p, req, true, id).1.Accepted?
  {
    var s1 := IssueProof(s, now, user, token, p.service, hub, c, true, secret).0;
    var req := Request(hub, c, secret, key);
    IssueAnswersBy(s, now, user, token, p.service, hub, c, true, secret);
    IssuedExactly(s, now, user, token, p.service, hub, c, secret);
    RedeemAnswersBy(s1, later, p, req, true, id);
    RedeemAnswersBy(s1.(tokens := s1.tokens[token := s1.tokens[token].(revoked := true)]), later, p, req, true, id);
    RedeemAnswersBy(s1.(disabledUsers := s1.disabledUsers + {user}), later, p, req, true, id);
    if RedeemProof(s1, later, p, req, true, id).1.Accepted? { AcceptedIsNew(s1, later, p, req, id); }
  }

  lemma AcceptedIsNew(s: Ledger, now: Time, p: PeerIdentity, req: Request, id: string)
    requires RedeemProof(s, now, p, req, true, id).1.Accepted? && NewKey(s, p, req.key, now)
    ensures var a := RedeemProof(s, now, p, req, true, id).1;
            && !a.replayed && req.receipt in s.receipts
            && var x := s.receipts[req.receipt];
               a.rec.user == x.user && a.rec.token == x.token && a.rec.challenge == x.challenge && a.rec.hub == x.hub
  {
  }

  // ---- peers and their credentials ----

  /** No other peer is enabled. */
  ghost predicate Alone(s: Ledger, service: ServiceId) {
    forall p :: p in s.peers && p != service ==> s.peers[p].disabled
  }

  lemma PeersChangeExactly(s: Ledger, service: ServiceId, hub: HubId, disabled: bool)
    ensures Register(s, service, hub) ==
            if hub == s.hub && service !in s.peers && Alone(s, service) then s.(peers := s.peers[service := Peer(hub, false)]) else s
    ensures SetDisabled(s, service, disabled) ==
            if service in s.peers && (disabled || Alone(s, service))
            then s.(peers := s.peers[service := Peer(s.peers[service].hub, disabled)]) else s
  {
    assert OtherEnabled(s, service) <==> !Alone(s, service);
  }

  /** Retiring a disabled peer removes it, its credentials, receipts and
      redemptions, and nothing else. */
  lemma RetireRemovesExactly(s: Ledger, service: ServiceId)
    ensures var t := Retire(s, service);
            if service !in s.peers || !s.peers[service].disabled then t == s
            else
              && t == s.(peers := s.peers - {service}, creds := t.creds, receipts := t.receipts, redemptions := t.redemptions)
              && (forall c :: c in t.creds <==> c in s.creds && s.creds[c].service != service)
              && (forall c :: c in t.creds ==> t.creds[c] == s.creds[c])
              && (forall r :: r in t.receipts <==> r in s.receipts && s.receipts[r].service != service)
              && (forall r :: r in t.receipts ==> t.receipts[r] == s.receipts[r])
              && (forall k :: k in t.redemptions <==> k in s.redemptions && k.0 != service)
              && (forall k :: k in t.redemptions ==> t.redemptions[k] == s.redemptions[k])
  {
  }

  /** The peer's unrevoked, unexpired credentials for an operation. */
  function InUse(s: Ledger, service: ServiceId, op: Operation, now: Time): set<CredId> {
    set c | c in s.creds && s.creds[c].service == service && s.creds[c].op == op
            && s.creds[c].revoked == false && now / 1000 < s.creds[c].expires
  }

  /** A credential is minted exactly for an enabled peer, for at most 366 days, when
      fewer than two of that operation are in use. */
  lemma CredentialsExactly(s: Ledger, now: Time, service: ServiceId, op: Operation, expires: Time, id: CredId)
    ensures var (s', ok) := IssueCredential(s, now, service, op, expires, id);
            && (ok <==>
                && now < expires <= now + 366 * 24 * 3600 * 1000
                && service in s.peers && s.peers[service].disabled == false && |InUse(s, service, op, now)| < 2)
            && s' == if ok then s.(creds := s.creds[id := Credential(service, op, expires / 1000, false)]) else s
  {
    assert InUse(s, service, op, now) == ActiveCreds(s, service, op, now);
  }

  /** A revocation touches the one credential of that name, if it is the peer's. */
  lemma RevokesExactly(s: Ledger, service: ServiceId, id: CredId)
    ensures var s' := RevokeCredential(s, service, id);
            && s' == s.(creds := s'.creds) && s'.creds.Keys == s.creds.Keys
            && forall c :: c in s.creds ==>
                 s'.creds[c] == Credential(s.creds[c].service, s.creds[c].op, s.creds[c].expires,
                                           s.creds[c].revoked || (c == id && s.creds[c].service == service))
  {
  }

  predicate NotReissued(ops: seq<Op>, id: CredId) { forall o :: o in ops && o.DoIssueCredential? ==> o.id != id }

  predicate Dead(s: Ledger, id: CredId) { id in s.creds ==> s.creds[id].revoked }

  lemma {:induction false} DeadStays(w: World, ops: seq<Op>, w': World, id: CredId)
    requires Dead(w.s, id) && Reaches(w, ops, w') && NotReissued(ops, id)
    ensures Dead(w'.s, id)
    decreases |ops|
  {
    if ops != [] {
      StepKeepsDead(w.s, ops[0], id);
      DeadStays(Step(w, ops[0]), ops[1..], w', id);
    }
  }

  lemma StepKeepsDead(s: Ledger, o: Op, id: CredId)
    requires Dead(s, id) && (o.DoIssueCredential? ==> o.id != id)
    ensures Dead(Tables(s, o), id)
  {
  }

  /** Once revoked, a credential redeems nothing and changes nothing in any later
      state, unless its fresh identifier is drawn again after a retirement. */
  lemma RevokedCredentialIsRefused(
    w: World, id: CredId, ops: seq<Op>, w': World, now: Time, p: PeerIdentity, req: Request, shaped: bool, x: string)
    requires id in w.s.creds && Reaches(Step(w, DoRevokeCredential(w.s.creds[id].service, id)), ops, w')
    requires NotReissued(ops, id) && p.cred == id
    ensures var (s, a) := RedeemProof(w'.s, now, p, req, shaped, x);
            s == w'.s && (a == PeerForbidden || a == InvalidRequest || a == PeerUnauthenticated)
  {
    DeadStays(Step(w, DoRevokeCredential(w.s.creds[id].service, id)), ops, w', id);
  }
}
