/** The identity ledger as a program: the transactions of
    internal/access/identity_proofs.go over tables updated in place, each
    proved to be the transaction of IdentityLedger. */
module IdentityStore {
  import opened IdentityLedger

  datatype PeerAnswer = PeerOk | BadForm | WrongHub | OtherActivePeer | DuplicatePeer | UnknownPeer | PeerEnabled

  class Store {
    const hub: HubId
    var peers: map<ServiceId, Peer>
    var creds: map<CredId, Credential>
    var receipts: map<Secret, Receipt>
    var redemptions: map<(ServiceId, RequestKey), Redemption>
    var disabledUsers: set<UserId>
    var tokens: map<TokenId, Token>

    constructor (hub: HubId)
      ensures Now() == Ledger(hub, map[], map[], map[], map[], {}, map[])
    {
      this.hub := hub;
      peers, creds, receipts, redemptions, disabledUsers, tokens := map[], map[], map[], map[], {}, map[];
    }

    ghost function Now(): Ledger
      reads this
    {
      Ledger(hub, peers, creds, receipts, redemptions, disabledUsers, tokens)
    }

    /** `requireNoOtherActivePeer`. */
    method NoOtherActivePeer(service: ServiceId) returns (ok: bool)
      ensures ok <==> !OtherEnabled(Now(), service)
    {
      var active := set p | p in peers && !peers[p].disabled && p != service;
      ok := active == {};
      if OtherEnabled(Now(), service) {
        ghost var p :| p in Now().peers && p != service && !Now().peers[p].disabled;
        assert p in active;
      } else {
        assert forall p :: p in active ==> p in Now().peers;
      }
    }

    /** shaped is the verdict on the form of the service ID, the endpoint and the
        TLS trust. */
    method RegisterIdentityPeer(service: ServiceId, peerHub: HubId, shaped: bool) returns (a: PeerAnswer)
      modifies this`peers
      ensures Now() == if shaped then Register(old(Now()), service, peerHub) else old(Now())
      ensures a == BadForm <==> !shaped
      ensures a == WrongHub <==> shaped && peerHub != hub
      ensures a == OtherActivePeer <==> shaped && peerHub == hub && OtherEnabled(old(Now()), service)
      ensures a == DuplicatePeer <==> shaped && peerHub == hub && !OtherEnabled(old(Now()), service) && service in old(peers)
      ensures a == PeerOk <==> Now() != old(Now())
    {
      if !shaped { return BadForm; }
      if peerHub != hub { return WrongHub; }
      var free := NoOtherActivePeer(service);
      if !free { return OtherActivePeer; }
      if service in peers { return DuplicatePeer; }
      peers := peers[service := Peer(peerHub, false)];
      assert service in Now().peers;
      return PeerOk;
    }

    method SetIdentityPeerDisabled(service: ServiceId, disabled: bool) returns (a: PeerAnswer)
      modifies this`peers
      ensures Now() == SetDisabled(old(Now()), service, disabled)
      ensures a == UnknownPeer <==> service !in old(peers)
      ensures a == OtherActivePeer <==> service in old(peers) && !disabled && OtherEnabled(old(Now()), service)
      ensures a == PeerOk <==> service in old(peers) && (disabled || !OtherEnabled(old(Now()), service))
    {
      if service !in peers { return UnknownPeer; }
      if !disabled {
        var free := NoOtherActivePeer(service);
        if !free { return OtherActivePeer; }
      }
      peers := peers[service := peers[service].(disabled := disabled)];
      return PeerOk;
    }

    /** The counts are of the credentials, receipts and redemptions removed. */
    method RetireIdentityPeer(service: ServiceId) returns (a: PeerAnswer, credentials: nat, proofs: nat, records: nat)
      modifies this
      ensures Now() == Retire(old(Now()), service)
      ensures a == UnknownPeer <==> service !in old(peers)
      ensures a == PeerEnabled <==> service in old(peers) && !old(peers[service].disabled)
      ensures a == PeerOk <==> service in old(peers) && old(peers[service].disabled)
      ensures credentials == |old(creds)| - |creds| && proofs == |old(receipts)| - |receipts|
      ensures records == |old(redemptions)| - |redemptions|
    {
      credentials, proofs, records := 0, 0, 0;
      if service !in peers { return UnknownPeer, 0, 0, 0; }
      if !peers[service].disabled { return PeerEnabled, 0, 0, 0; }
      var c := set c | c in creds && creds[c].service == service;
      var r := set r | r in receipts && receipts[r].service == service;
      var k := set k | k in redemptions && k.0 == service;
      RetireDeletes(Now(), service, c, r, k);
      credentials, proofs, records := DeleteRows(service, c, r, k);
      a := PeerOk;
    }

    method DeleteRows(service: ServiceId, c: set<CredId>, r: set<Secret>, k: set<(ServiceId, RequestKey)>)
      returns (credentials: nat, proofs: nat, records: nat)
      requires c <= creds.Keys && r <= receipts.Keys && k <= redemptions.Keys
      modifies this
      ensures Now() == old(Now()).(peers := old(peers) - {service}, creds := old(creds) - c,
                                   receipts := old(receipts) - r, redemptions := old(redemptions) - k)
      ensures credentials == |old(creds)| - |creds| && proofs == |old(receipts)| - |receipts|
      ensures records == |old(redemptions)| - |redemptions|
    {
      creds, credentials := Delete(creds, c);
      receipts, proofs := Delete(receipts, r);
      redemptions, records := Delete(redemptions, k);
      peers := peers - {service};
    }

    method IssuePeerCredential(now: Time, service: ServiceId, op: Operation, expires: Time, id: CredId) returns (issued: bool)
      modifies this`creds
      ensures (Now(), issued) == IssueCredential(old(Now()), now, service, op, expires, id)
    {
      if expires <= now || expires > now + CREDENTIAL_MAX_LIFE { return false; }
      if service !in peers { return false; }
      if peers[service].disabled { return false; }
      var active := set c | c in creds && creds[c].service == service && creds[c].op == op
                            && !creds[c].revoked && creds[c].expires > Seconds(now);
      assert active == ActiveCreds(Now(), service, op, now);
      if |active| >= MAX_ACTIVE { return false; }
      creds := creds[id := Credential(service, op, Seconds(expires), false)];
      return true;
    }

    /** `pruneIdentityLedger`: the redemptions first, then the receipts. */
    method PruneLedger(now: Time)
      modifies this`redemptions, this`receipts
      ensures Now() == Prune(old(Now()), now)
    {
      redemptions := redemptions - set k | k in redemptions && redemptions[k].at + RETENTION < now;
      receipts := receipts - set r | r in receipts && receipts[r].expires + RETENTION < now;
    }

    method UserTokenState(user: UserId, token: TokenId, now: Time) returns (live: bool, userScoped: bool)
      ensures live <==> TokenLive(Now(), user, token, now)
      ensures live && userScoped <==> TokenProves(Now(), user, token, now)
    {
      if token !in tokens || tokens[token].user != user || user in disabledUsers
         || tokens[token].revoked || tokens[token].expires <= Seconds(now)
      {
        return false, false;
      }
      return true, tokens[token].userScoped;
    }

    method IssueProofReceipt(
      now: Time, user: UserId, token: TokenId, service: ServiceId, peerHub: HubId, challenge: Challenge, shaped: bool, secret: Secret)
      returns (a: IssueAnswer)
      modifies this
      ensures (Now(), a) == IssueProof(old(Now()), now, user, token, service, peerHub, challenge, shaped, secret)
    {
      if !shaped { return InvalidProofRequest; }
      var live, userScoped := UserTokenState(user, token, now);
      if !live { return Denied; }
      if !userScoped { return ScopeForbidden; }
      if service !in peers || peers[service].hub != peerHub || peerHub != hub || peers[service].disabled { return PeerUnknown; }
      var recent := set r | r in receipts && receipts[r].token == token && receipts[r].created + MINUTE > now;
      assert recent == Recent(Now(), token, now);
      if |recent| >= RECEIPTS_PER_MINUTE { return RateLimited; }
      PruneLedger(now);
      InsertReceipt(now, user, token, service, peerHub, challenge, secret);
      return Issued;
    }

    /** Supersede the live receipt of the same binding, then add the new one. */
    method InsertReceipt(now: Time, user: UserId, token: TokenId, service: ServiceId, peerHub: HubId, challenge: Challenge, secret: Secret)
      modifies this`receipts
      ensures Now() == Insert(old(Now()), now, user, token, service, peerHub, challenge, secret)
    {
      SupersedeLive(token, service, challenge);
      receipts := receipts[secret := Receipt(service, peerHub, challenge, user, token, now, now + RECEIPT_LIFE, Live)];
    }

    method SupersedeLive(token: TokenId, service: ServiceId, challenge: Challenge)
      modifies this`receipts
      ensures receipts == Supersede(old(receipts), token, service, challenge)
    {
      var marked := set r | r in receipts && receipts[r].token == token && receipts[r].service == service
                            && receipts[r].challenge == challenge && receipts[r].state == Live;
      receipts := map r | r in receipts :: if r in marked then receipts[r].(state := Superseded) else receipts[r];
    }

    method PeerStillValid(p: PeerIdentity, now: Time) returns (ok: bool)
      ensures ok <==> PeerValid(Now(), p, now)
    {
      ok := p.cred in creds && creds[p.cred].service == p.service && creds[p.cred].op == p.op
            && !creds[p.cred].revoked && creds[p.cred].expires > Seconds(now)
            && p.service in peers && !peers[p.service].disabled;
    }

    method RedeemReceipt(now: Time, p: PeerIdentity, req: Request, shaped: bool, id: string) returns (a: RedeemAnswer)
      modifies this
      ensures (Now(), a) == RedeemProof(old(Now()), now, p, req, shaped, id)
    {
      if p.op != RedeemOp { return PeerForbidden; }
      if !shaped { return InvalidRequest; }
      var valid := PeerStillValid(p, now);
      if !valid { return PeerUnauthenticated; }
      PruneLedger(now);
      var live, userScoped;
      if (p.service, req.key) in redemptions {
        var rec := redemptions[(p.service, req.key)];
        if rec.input != req.Input() { return IdempotencyConflict; }
        live, userScoped := UserTokenState(rec.user, rec.token, now);
        if !live || !userScoped { return CredentialInactive; }
        return Accepted(rec, true);
      }
      if req.receipt !in receipts { return ProofInvalid; }
      var x := receipts[req.receipt];
      if x.service != p.service || x.challenge != req.challenge || x.hub != req.hub { return ProofInvalid; }
      if x.state == Redeemed || x.state == Superseded || x.expires <= now { return ProofInvalid; }
      live, userScoped := UserTokenState(x.user, x.token, now);
      if !live || !userScoped { return CredentialInactive; }
      receipts := receipts[req.receipt := x.(state := Redeemed)];
      var rec := Redemption(req.Input(), id, req.receipt, x.hub, x.challenge, x.user, x.token, now);
      redemptions := redemptions[(p.service, req.key) := rec];
      return Accepted(rec, false);
    }
  }

  lemma RetireDeletes(s: Ledger, service: ServiceId, c: set<CredId>, r: set<Secret>, k: set<(ServiceId, RequestKey)>)
    requires service in s.peers && s.peers[service].disabled
    requires c == (set c | c in s.creds && s.creds[c].service == service)
    requires r == (set r | r in s.receipts && s.receipts[r].service == service)
    requires k == (set k | k in s.redemptions && k.0 == service)
    ensures Retire(s, service) ==
            s.(peers := s.peers - {service}, creds := s.creds - c, receipts := s.receipts - r, redemptions := s.redemptions - k)
  {
    var t := Retire(s, service);
    assert t.creds == s.creds - c;
    assert t.receipts == s.receipts - r;
    assert t.redemptions == s.redemptions - k;
  }

  /** A DELETE with its count of rows. */
  method Delete<K(==), V>(m: map<K, V>, gone: set<K>) returns (left: map<K, V>, n: nat)
    requires gone <= m.Keys
    ensures left == m - gone && n == |m| - |left|
  {
    left, n := m - gone, |gone|;
    assert left.Keys == m.Keys - gone;
  }
}
