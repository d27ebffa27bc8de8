/** What every run of the identity proof ledger keeps: single effect, one live
    receipt per binding, one enabled peer, bounded credentials and bounded
    issuing. */
module IdentityRuns {
  import opened Lists
  import opened IdentityLedger

  datatype Op =
    | DoRegister(service: ServiceId, hub: HubId)
    | DoSetDisabled(service: ServiceId, disabled: bool)
    | DoRetire(now: Time, service: ServiceId)
    | DoIssueCredential(now: Time, service: ServiceId, op: Operation, expires: Time, id: CredId)
    | DoRevokeCredential(service: ServiceId, id: CredId)
    | DoIssueProof(now: Time, user: UserId, token: TokenId, service: ServiceId, hub: HubId, challenge: Challenge, shaped: bool, secret: Secret)
    | DoRedeem(now: Time, p: PeerIdentity, req: Request, shaped: bool, id: string)
    | ChangeAccess(disabledUsers: set<UserId>, tokens: map<TokenId, Token>)

  /** drawn: every receipt secret ever issued, with its token and time;
      spent: every receipt ever redeemed, once per first redemption. */
  datatype World = World(s: Ledger, drawn: map<Secret, (TokenId, Time)>, spent: seq<Secret>)

  /** Fresh secrets and identifiers are unique. */
  predicate Fresh(w: World, op: Op) {
    && (op.DoIssueProof? ==> op.secret !in w.drawn)
    && (op.DoIssueCredential? ==> op.id !in w.s.creds)
  }

  ghost function Tables(s: Ledger, op: Op): Ledger {
    match op
    case DoRegister(service, hub) => Register(s, service, hub)
    case DoSetDisabled(service, d) => SetDisabled(s, service, d)
    case DoRetire(_, service) => Retire(s, service)
    case DoIssueCredential(now, service, o, expires, id) => IssueCredential(s, now, service, o, expires, id).0
    case DoRevokeCredential(service, id) => RevokeCredential(s, service, id)
    case DoIssueProof(now, u, t, service, hub, c, shaped, secret) => IssueProof(s, now, u, t, service, hub, c, shaped, secret).0
    case DoRedeem(now, p, req, shaped, id) => RedeemProof(s, now, p, req, shaped, id).0
    case ChangeAccess(d, t) => s.(disabledUsers := d, tokens := t)
  }

  function Issues(s: Ledger, op: Op): bool {
    op.DoIssueProof? && IssueProof(s, op.now, op.user, op.token, op.service, op.hub, op.challenge, op.shaped, op.secret).1 == Issued
  }

  /** The op is a first redemption, not a replay. */
  function Spends(s: Ledger, op: Op): bool {
    op.DoRedeem? && var a := RedeemProof(s, op.now, op.p, op.req, op.shaped, op.id).1; a.Accepted? && !a.replayed
  }

  ghost function Step(w: World, op: Op): World {
    World(Tables(w.s, op),
          if Issues(w.s, op) then w.drawn[op.secret := (op.token, op.now)] else w.drawn,
          if Spends(w.s, op) then w.spent + [op.req.receipt] else w.spent)
  }

  ghost predicate Reaches(w: World, ops: seq<Op>, w': World)
    decreases |ops|
  {
    if ops == [] then w == w' else Fresh(w, ops[0]) && Reaches(Step(w, ops[0]), ops[1..], w')
  }

  ghost predicate Initial(w: World) {
    && w.s.peers == map[] && w.s.creds == map[] && w.s.receipts == map[] && w.s.redemptions == map[]
    && w.drawn == map[] && w.spent == []
  }

  // ---- invariants ----

  ghost predicate OneEnabledPeer(s: Ledger) {
    forall p, q :: p in s.peers && q in s.peers && !s.peers[p].disabled && !s.peers[q].disabled ==> p == q
  }

  ghost predicate SameBinding(x: Receipt, y: Receipt) {
    x.token == y.token && x.service == y.service && x.challenge == y.challenge
  }

  ghost predicate OneLiveReceipt(s: Ledger) {
    forall r, q :: r in s.receipts && q in s.receipts && r != q && s.receipts[r].state == Live && s.receipts[q].state == Live ==>
      !SameBinding(s.receipts[r], s.receipts[q])
  }

  /** A stored redemption shows its receipt, which is still there, redeemed, and
      expires later than the redemption happened. */
  ghost predicate BackedBy(s: Ledger, service: ServiceId, rec: Redemption) {
    && rec.receipt in s.receipts
    && var x := s.receipts[rec.receipt];
       && x.state == Redeemed && x.service == service && rec.at < x.expires
       && rec.hub == x.hub && rec.challenge == x.challenge && rec.user == x.user && rec.token == x.token
       && rec.input == (x.hub, x.challenge, rec.receipt)
  }

  ghost predicate RedemptionsBacked(s: Ledger) {
    forall k :: k in s.redemptions ==> BackedBy(s, k.0, s.redemptions[k])
  }

  ghost predicate OneRedemptionPerReceipt(s: Ledger) {
    forall k, l :: k in s.redemptions && l in s.redemptions && s.redemptions[k].receipt == s.redemptions[l].receipt ==> k == l
  }

  function Times(spent: seq<Secret>, r: Secret): nat { multiset(spent)[r] }

  /** History and tables agree: a spent receipt was drawn, spent once, and if it
      is still stored it is not live. */
  ghost predicate SpentOnce(w: World) {
    && (forall r :: r in w.s.receipts ==> r in w.drawn)
    && (forall r :: r in w.spent ==> r in w.drawn && Times(w.spent, r) == 1)
    && (forall r :: r in w.s.receipts && w.s.receipts[r].state != Redeemed ==> r !in w.spent)
  }

  ghost predicate Sound(w: World) {
    OneEnabledPeer(w.s) && OneLiveReceipt(w.s) && RedemptionsBacked(w.s) && OneRedemptionPerReceipt(w.s) && SpentOnce(w)
  }

  // ---- steps ----

  /** Pruning removes a redemption no later than its receipt. */
  lemma PruneKeepsBacked(s: Ledger, now: Time)
    requires RedemptionsBacked(s)
    ensures RedemptionsBacked(Prune(s, now))
  {
    var t := Prune(s, now);
    forall k | k in t.redemptions ensures BackedBy(t, k.0, t.redemptions[k]) {
      assert BackedBy(s, k.0, s.redemptions[k]);
    }
  }

  lemma PruneKeepsSound(w: World, now: Time)
    requires Sound(w)
    ensures Sound(w.(s := Prune(w.s, now)))
  {
    PruneKeepsBacked(w.s, now);
  }

  lemma RetireKeepsSound(w: World, service: ServiceId)
    requires Sound(w)
    ensures Sound(w.(s := Retire(w.s, service)))
  {
    var t := Retire(w.s, service);
    forall k | k in t.redemptions ensures BackedBy(t, k.0, t.redemptions[k]) {
      assert BackedBy(w.s, k.0, w.s.redemptions[k]);
    }
  }

  lemma InsertKeepsSound(w: World, now: Time, user: UserId, token: TokenId, service: ServiceId, hub: HubId, challenge: Challenge, secret: Secret)
    requires Sound(w) && secret !in w.drawn
    ensures Sound(World(Insert(w.s, now, user, token, service, hub, challenge, secret), w.drawn[secret := (token, now)], w.spent))
  {
    var t := Insert(w.s, now, user, token, service, hub, challenge, secret);
    InsertKeepsBacked(w.s, now, user, token, service, hub, challenge, secret);
    InsertKeepsOneLive(w.s, now, user, token, service, hub, challenge, secret);
    assert SpentOnce(World(t, w.drawn[secret := (token, now)], w.spent));
  }

  lemma InsertKeepsBacked(s: Ledger, now: Time, user: UserId, token: TokenId, service: ServiceId, hub: HubId, challenge: Challenge, secret: Secret)
    requires RedemptionsBacked(s) && secret !in s.receipts
    ensures RedemptionsBacked(Insert(s, now, user, token, service, hub, challenge, secret))
  {
    var t := Insert(s, now, user, token, service, hub, challenge, secret);
    forall k | k in t.redemptions ensures BackedBy(t, k.0, t.redemptions[k]) {
      assert BackedBy(s, k.0, s.redemptions[k]);
    }
  }

  lemma InsertKeepsOneLive(s: Ledger, now: Time, user: UserId, token: TokenId, service: ServiceId, hub: HubId, challenge: Challenge, secret: Secret)
    requires OneLiveReceipt(s) && secret !in s.receipts
    ensures OneLiveReceipt(Insert(s, now, user, token, service, hub, challenge, secret))
  {
  }

  lemma ConsumeKeepsSound(w: World, p: PeerIdentity, req: Request, now: Time, id: string)
    requires Sound(w) && Redeemable(w.s, p, req, now) && (p.service, req.key) !in w.s.redemptions
    ensures Sound(World(Consume(w.s, p, req, now, id).0, w.drawn, w.spent + [req.receipt]))
  {
    ConsumeKeepsBacked(w, p, req, now, id);
    ConsumeSpendsOnce(w, p, req, now, id);
  }

  lemma ConsumeKeepsBacked(w: World, p: PeerIdentity, req: Request, now: Time, id: string)
    requires Sound(w) && Redeemable(w.s, p, req, now) && (p.service, req.key) !in w.s.redemptions
    ensures var t := Consume(w.s, p, req, now, id).0;
            OneEnabledPeer(t) && OneLiveReceipt(t) && RedemptionsBacked(t) && OneRedemptionPerReceipt(t)
  {
    var t := Consume(w.s, p, req, now, id).0;
    forall k | k in t.redemptions ensures BackedBy(t, k.0, t.redemptions[k]) {
      if k != (p.service, req.key) { assert BackedBy(w.s, k.0, w.s.redemptions[k]); }
    }
    forall k | k in w.s.redemptions ensures w.s.redemptions[k].receipt != req.receipt {
      assert BackedBy(w.s, k.0, w.s.redemptions[k]);
    }
  }

  lemma ConsumeSpendsOnce(w: World, p: PeerIdentity, req: Request, now: Time, id: string)
    requires SpentOnce(w) && Redeemable(w.s, p, req, now)
    ensures SpentOnce(World(Consume(w.s, p, req, now, id).0, w.drawn, w.spent + [req.receipt]))
  {
    assert Times(w.spent, req.receipt) == 0;
    forall r | r in w.spent + [req.receipt] ensures Times(w.spent + [req.receipt], r) == 1 {
      if r in w.spent { assert Times(w.spent, r) == 1; }
    }
  }

  lemma PeersKeepSound(w: World, s': Ledger)
    requires Sound(w) && OneEnabledPeer(s')
    requires s'.receipts == w.s.receipts && s'.redemptions == w.s.redemptions
    ensures Sound(w.(s := s'))
  {
    forall k | k in s'.redemptions ensures BackedBy(s', k.0, s'.redemptions[k]) {
      assert BackedBy(w.s, k.0, w.s.redemptions[k]);
    }
  }

  lemma IssueKeepsSound(w: World, op: Op)
    requires Sound(w) && Fresh(w, op) && op.DoIssueProof?
    ensures Sound(Step(w, op))
  {
    if Issues(w.s, op) {
      var t := Prune(w.s, op.now);
      PruneKeepsSound(w, op.now);
      InsertKeepsSound(w.(s := t), op.now, op.user, op.token, op.service, op.hub, op.challenge, op.secret);
    } else {
      assert Tables(w.s, op) == w.s;
    }
  }

  lemma PeerOpKeepsSound(w: World, op: Op)
    requires Sound(w) && !op.DoIssueProof? && !op.DoRedeem? && !op.DoRetire?
    ensures Sound(Step(w, op))
  {
    PeerOpLeaves(w.s, op);
    PeersKeepSound(w, Tables(w.s, op));
  }

  lemma PeerOpLeaves(s: Ledger, op: Op)
    requires OneEnabledPeer(s) && !op.DoIssueProof? && !op.DoRedeem? && !op.DoRetire?
    ensures var s' := Tables(s, op); OneEnabledPeer(s') && s'.receipts == s.receipts && s'.redemptions == s.redemptions
  {
  }

  lemma StepKeepsSound(w: World, op: Op)
    requires Sound(w) && Fresh(w, op)
    ensures Sound(Step(w, op))
  {
    if op.DoIssueProof? { IssueKeepsSound(w, op); }
    else if op.DoRedeem? { RedeemKeepsSound(w, op.now, op.p, op.req, op.shaped, op.id); }
    else if op.DoRetire? { RetireKeepsSound(w, op.service); }
    else { PeerOpKeepsSound(w, op); }
  }

  /** A first redemption consumes its receipt from the pruned tables; any other
      answer leaves the tables, or the pruned ones. */
  lemma RedeemIs(s: Ledger, now: Time, p: PeerIdentity, req: Request, shaped: bool, id: string)
    ensures var t, s' := Prune(s, now), RedeemProof(s, now, p, req, shaped, id).0;
            if Spends(s, DoRedeem(now, p, req, shaped, id)) then
              Redeemable(t, p, req, now) && (p.service, req.key) !in t.redemptions && s' == Consume(t, p, req, now, id).0
            else s' == s || s' == t
  {
  }

  lemma RedeemKeepsSound(w: World, now: Time, p: PeerIdentity, req: Request, shaped: bool, id: string)
    requires Sound(w)
    ensures Sound(Step(w, DoRedeem(now, p, req, shaped, id)))
  {
    RedeemIs(w.s, now, p, req, shaped, id);
    PruneKeepsSound(w, now);
    if Spends(w.s, DoRedeem(now, p, req, shaped, id)) {
      ConsumeKeepsSound(w.(s := Prune(w.s, now)), p, req, now, id);
    }
  }

  lemma {:induction false} RunIsSound(w: World, ops: seq<Op>, w': World)
    requires Sound(w) && Reaches(w, ops, w')
    ensures Sound(w')
    decreases |ops|
  {
    if ops != [] {
      StepKeepsSound(w, ops[0]);
      RunIsSound(Step(w, ops[0]), ops[1..], w');
    }
  }

  /** Proof receipts have a single effect, over every run with any clock: each
      receipt is redeemed at most once, at most one per binding is live, every
      stored redemption has its receipt stored as redeemed, no two redemptions
      share one, and at most one peer is enabled. */
  lemma SingleEffect(w0: World, ops: seq<Op>, w: World)
    requires Initial(w0) && Reaches(w0, ops, w)
    ensures forall r :: Times(w.spent, r) <= 1
    ensures OneLiveReceipt(w.s) && RedemptionsBacked(w.s) && OneRedemptionPerReceipt(w.s) && OneEnabledPeer(w.s)
  {
    RunIsSound(w0, ops, w);
    forall r ensures Times(w.spent, r) <= 1 {
      if Times(w.spent, r) > 0 { assert r in w.spent; }
    }
  }

  /** A retained request key replays its record or conflicts; it never redeems
      again and never changes what is stored under it. */
  lemma RetainedKeyReplays(w: World, now: Time, p: PeerIdentity, req: Request, id: string)
    requires Sound(w) && p.op == RedeemOp && PeerValid(w.s, p, now)
    requires (p.service, req.key) in Prune(w.s, now).redemptions
    ensures var (s', a) := RedeemProof(w.s, now, p, req, true, id);
            var rec := w.s.redemptions[(p.service, req.key)];
            && (p.service, req.key) in s'.redemptions && s'.redemptions[(p.service, req.key)] == rec
            && s'.receipts.Keys <= w.s.receipts.Keys
            && (a == Accepted(rec, true) || a == IdempotencyConflict || a == CredentialInactive)
            && (a == IdempotencyConflict <==> req.receipt != rec.receipt || req.challenge != rec.challenge || req.hub != rec.hub)
  {
    var rec := w.s.redemptions[(p.service, req.key)];
    assert BackedBy(w.s, p.service, rec);
  }

  // ---- bounds under a clock that does not go back ----

  /** When an op reads the clock. */
  function ClockOf(op: Op, before: Time): Time {
    match op
    case DoIssueCredential(now, _, _, _, _) => now
    case DoIssueProof(now, _, _, _, _, _, _, _) => now
    case DoRedeem(now, _, _, _, _) => now
    case DoRetire(now, _) => now
    case _ => before
  }

  /** A run in which no clock reading is earlier than the one before. */
  ghost predicate Forward(w: World, at: Time, ops: seq<Op>, w': World, at': Time)
    decreases |ops|
  {
    if ops == [] then w == w' && at == at'
    else
      && Fresh(w, ops[0]) && at <= ClockOf(ops[0], at)
      && Forward(Step(w, ops[0]), ClockOf(ops[0], at), ops[1..], w', at')
  }

  ghost predicate CredentialsBounded(s: Ledger, now: Time) {
    forall service, op :: |ActiveCreds(s, service, op, now)| <= MAX_ACTIVE
  }

  lemma FewerActive(s: Ledger, s': Ledger, service: ServiceId, op: Operation, now: Time, now': Time)
    requires now <= now' && FewerCreds(s, s')
    ensures |ActiveCreds(s', service, op, now')| <= |ActiveCreds(s, service, op, now)|
  {
    assert ActiveCreds(s', service, op, now') <= ActiveCreds(s, service, op, now);
    Subset(ActiveCreds(s', service, op, now'), ActiveCreds(s, service, op, now));
  }

  lemma CredentialStep(w: World, at: Time, op: Op)
    requires CredentialsBounded(w.s, at) && Fresh(w, op) && at <= ClockOf(op, at)
    ensures CredentialsBounded(Tables(w.s, op), ClockOf(op, at))
  {
    if op.DoIssueCredential? {
      IssueKeepsBound(w.s, at, op.now, op.service, op.op, op.expires, op.id);
    } else {
      OthersKeepCreds(w.s, op);
      StaysBounded(w.s, Tables(w.s, op), at, ClockOf(op, at));
    }
  }

  /** No credential is added, and none comes back. */
  ghost predicate FewerCreds(s: Ledger, s': Ledger) {
    forall c :: c in s'.creds ==> c in s.creds && (s'.creds[c] == s.creds[c] || s'.creds[c].revoked)
  }

  lemma OthersKeepCreds(s: Ledger, op: Op)
    requires !op.DoIssueCredential?
    ensures FewerCreds(s, Tables(s, op))
  {
    if op.DoRedeem? { RedeemIs(s, op.now, op.p, op.req, op.shaped, op.id); }
  }

  lemma StaysBounded(s: Ledger, s': Ledger, at: Time, now: Time)
    requires CredentialsBounded(s, at) && FewerCreds(s, s') && at <= now
    ensures CredentialsBounded(s', now)
  {
    forall service, o ensures |ActiveCreds(s', service, o, now)| <= MAX_ACTIVE { FewerActive(s, s', service, o, at, now); }
  }

  lemma IssueKeepsBound(s: Ledger, at: Time, now: Time, service: ServiceId, op: Operation, expires: Time, id: CredId)
    requires CredentialsBounded(s, at) && at <= now && id !in s.creds
    ensures CredentialsBounded(IssueCredential(s, now, service, op, expires, id).0, now)
  {
    StaysBounded(s, s, at, now);
    if IssueCredential(s, now, service, op, expires, id).1 {
      AddKeepsBound(s, now, Credential(service, op, Seconds(expires), false), id);
    }
  }

  /** One more, where there was room. */
  lemma AddKeepsBound(s: Ledger, now: Time, c: Credential, id: CredId)
    requires CredentialsBounded(s, now) && id !in s.creds && |ActiveCreds(s, c.service, c.op, now)| < MAX_ACTIVE
    ensures CredentialsBounded(s.(creds := s.creds[id := c]), now)
  {
    var s' := s.(creds := s.creds[id := c]);
    forall q, o ensures |ActiveCreds(s', q, o, now)| <= MAX_ACTIVE { AddedActive(s, now, c, id, q, o); }
  }

  lemma AddedActive(s: Ledger, now: Time, c: Credential, id: CredId, q: ServiceId, o: Operation)
    requires id !in s.creds
    ensures var before, after := ActiveCreds(s, q, o, now), ActiveCreds(s.(creds := s.creds[id := c]), q, o, now);
            |after| <= |before| + if q == c.service && o == c.op then 1 else 0
  {
    var before, after := ActiveCreds(s, q, o, now), ActiveCreds(s.(creds := s.creds[id := c]), q, o, now);
    var added := if q == c.service && o == c.op then {id} else {};
    assert after <= before + added;
    Subset(after, before + added);
  }

  /** Under a clock that does not go back, no peer ever has more than two active
      credentials for one operation. */
  lemma {:induction false} CredentialsStayBounded(w: World, at: Time, ops: seq<Op>, w': World, at': Time)
    requires CredentialsBounded(w.s, at) && Forward(w, at, ops, w', at')
    ensures CredentialsBounded(w'.s, at')
    decreases |ops|
  {
    if ops != [] {
      CredentialStep(w, at, ops[0]);
      CredentialsStayBounded(Step(w, ops[0]), ClockOf(ops[0], at), ops[1..], w', at');
    }
  }

  /** The receipts a token drew in the minute that ends at t, stored or not. */
  function DrawnIn(w: World, from: set<Secret>, token: TokenId, t: Time): set<Secret> {
    set r | r in w.drawn && r !in from && w.drawn[r].0 == token && w.drawn[r].1 <= t < w.drawn[r].1 + MINUTE
  }

  /** A retirement deletes a receipt the token drew within the last minute. */
  ghost predicate Forgives(s: Ledger, op: Op, token: TokenId) {
    op.DoRetire? && exists r :: r in Recent(s, token, op.now) && r !in Retire(s, op.service).receipts
  }

  ghost predicate NeverForgiven(w: World, ops: seq<Op>, token: TokenId)
    decreases |ops|
  {
    ops != [] ==> !Forgives(w.s, ops[0], token) && NeverForgiven(Step(w, ops[0]), ops[1..], token)
  }

  predicate StoredAs(s: Ledger, r: Secret, token: TokenId, drawn: Time) {
    && r in s.receipts && s.receipts[r].token == token && s.receipts[r].created == drawn
    && s.receipts[r].expires == drawn + RECEIPT_LIFE
  }

  /** What the token drew since from, within the last minute, is still stored. */
  ghost predicate Stored(w: World, from: set<Secret>, token: TokenId, at: Time) {
    forall r :: r in w.drawn && r !in from && w.drawn[r].0 == token ==>
      w.drawn[r].1 <= at && (w.drawn[r].1 + MINUTE > at ==> StoredAs(w.s, r, token, w.drawn[r].1))
  }

  ghost predicate RateBounded(w: World, from: set<Secret>, token: TokenId) {
    forall t :: |DrawnIn(w, from, token, t)| <= RECEIPTS_PER_MINUTE
  }

  lemma RateStep(w: World, from: set<Secret>, token: TokenId, at: Time, op: Op)
    requires Stored(w, from, token, at) && RateBounded(w, from, token) && Fresh(w, op) && at <= ClockOf(op, at)
    requires from <= w.drawn.Keys && !Forgives(w.s, op, token)
    ensures var w' := Step(w, op); Stored(w', from, token, ClockOf(op, at)) && RateBounded(w', from, token)
  {
    if Issues(w.s, op) {
      IssueStaysStored(w, from, token, at, op);
      IssueStaysBounded(w, from, token, at, op);
    } else {
      OthersStayStored(w, from, token, at, op);
      forall t ensures |DrawnIn(Step(w, op), from, token, t)| <= RECEIPTS_PER_MINUTE {
        assert DrawnIn(Step(w, op), from, token, t) == DrawnIn(w, from, token, t);
      }
    }
  }

  lemma IssueStaysBounded(w: World, from: set<Secret>, token: TokenId, at: Time, op: Op)
    requires Stored(w, from, token, at) && RateBounded(w, from, token) && Fresh(w, op) && at <= ClockOf(op, at)
    requires Issues(w.s, op) && from <= w.drawn.Keys
    ensures RateBounded(Step(w, op), from, token)
  {
    var w', now := Step(w, op), op.now;
    forall t ensures |DrawnIn(w', from, token, t)| <= RECEIPTS_PER_MINUTE {
      var before := DrawnIn(w, from, token, t);
      if token == op.token && now <= t {
        forall r | r in before ensures r in Recent(w.s, token, now) { assert StoredAs(w.s, r, token, w.drawn[r].1); }
        Subset(before, Recent(w.s, token, now));
        assert DrawnIn(w', from, token, t) <= before + {op.secret};
        Subset(DrawnIn(w', from, token, t), before + {op.secret});
      } else {
        assert DrawnIn(w', from, token, t) == before;
      }
    }
  }

  /** A receipt of the last minute is removed by a forgiving retirement alone. */
  lemma ReceiptSurvives(s: Ledger, op: Op, at: Time, r: Secret, token: TokenId, drawn: Time)
    requires !op.DoIssueProof? && at <= ClockOf(op, at) < drawn + MINUTE && StoredAs(s, r, token, drawn)
    requires !Forgives(s, op, token)
    ensures StoredAs(Tables(s, op), r, token, drawn)
  {
    if op.DoRetire? { assert r in Recent(s, token, op.now); }
  }

  lemma OthersStayStored(w: World, from: set<Secret>, token: TokenId, at: Time, op: Op)
    requires Stored(w, from, token, at) && Fresh(w, op) && at <= ClockOf(op, at) && !Issues(w.s, op)
    requires !Forgives(w.s, op, token)
    ensures Stored(Step(w, op), from, token, ClockOf(op, at)) && Step(w, op).drawn == w.drawn
  {
    var w', now := Step(w, op), ClockOf(op, at);
    forall r | r in w.drawn && r !in from && w.drawn[r].0 == token && w.drawn[r].1 + MINUTE > now
      ensures StoredAs(w'.s, r, token, w.drawn[r].1)
    {
      if !op.DoIssueProof? { ReceiptSurvives(w.s, op, at, r, token, w.drawn[r].1); }
    }
  }

  lemma IssueStaysStored(w: World, from: set<Secret>, token: TokenId, at: Time, op: Op)
    requires Stored(w, from, token, at) && Issues(w.s, op) && Fresh(w, op) && at <= op.now
    ensures Stored(Step(w, op), from, token, op.now)
  {
  }

  lemma {:induction false} RateStaysBounded(
    w: World, from: set<Secret>, token: TokenId, at: Time, ops: seq<Op>, w': World, at': Time)
    requires Stored(w, from, token, at) && RateBounded(w, from, token) && from <= w.drawn.Keys
    requires Forward(w, at, ops, w', at') && NeverForgiven(w, ops, token)
    ensures RateBounded(w', from, token)
    decreases |ops|
  {
    if ops != [] {
      RateStep(w, from, token, at, ops[0]);
      RateStaysBounded(Step(w, ops[0]), from, token, ClockOf(ops[0], at), ops[1..], w', at');
    }
  }

  /** A token is issued at most ten receipts in any minute of a stretch, whatever
      was stored before and whatever is pruned, unless a retirement deletes a
      receipt it drew within the last minute. */
  lemma AtMostTenPerMinute(w: World, at: Time, ops: seq<Op>, w': World, at': Time, token: TokenId, t: Time)
    requires Forward(w, at, ops, w', at') && NeverForgiven(w, ops, token)
    ensures |DrawnIn(w', w.drawn.Keys, token, t)| <= RECEIPTS_PER_MINUTE
  {
    forall t ensures |DrawnIn(w, w.drawn.Keys, token, t)| <= RECEIPTS_PER_MINUTE {
      assert DrawnIn(w, w.drawn.Keys, token, t) == {};
    }
    RateStaysBounded(w, w.drawn.Keys, token, at, ops, w', at');
  }

  /** And that is exactly when a token at its limit may draw again at once: a
      disabled peer p is retired, and the token asks under an enabled one, q. */
  lemma RetirementForgivesRate(s: Ledger, now: Time, user: UserId, token: TokenId, p: ServiceId, q: ServiceId, c: Challenge, secret: Secret)
    requires TokenProves(s, user, token, now) && |Recent(s, token, now)| == RECEIPTS_PER_MINUTE
    requires p in s.peers && s.peers[p].disabled && q in s.peers && !s.peers[q].disabled && s.peers[q].hub == s.hub
    ensures IssueProof(s, now, user, token, q, s.hub, c, true, secret).1 == RateLimited
    ensures IssueProof(Retire(s, p), now, user, token, q, s.hub, c, true, secret).1 == Issued <==>
              Forgives(s, DoRetire(now, p), token)
  {
    var s', before := Retire(s, p), Recent(s, token, now);
    var after := Recent(s', token, now);
    assert after <= before;
    if Forgives(s, DoRetire(now, p), token) {
      var r :| r in before && r !in s'.receipts;
      Subset(after, before - {r});
    } else {
      assert after == before;
    }
  }

  /** Of ten receipts drawn in this minute, the eleventh follows exactly then. */
  lemma EleventhDrawnExactly(w: World, now: Time, user: UserId, token: TokenId, p: ServiceId, q: ServiceId, c: Challenge, secret: Secret)
    requires TokenProves(w.s, user, token, now) && secret !in w.drawn
    requires DrawnIn(w, {}, token, now) == Recent(w.s, token, now) && |Recent(w.s, token, now)| == RECEIPTS_PER_MINUTE
    requires p in w.s.peers && w.s.peers[p].disabled && q in w.s.peers && !w.s.peers[q].disabled && w.s.peers[q].hub == w.s.hub
    ensures var w' := Step(Step(w, DoRetire(now, p)), DoIssueProof(now, user, token, q, w.s.hub, c, true, secret));
            |DrawnIn(w', {}, token, now)| == RECEIPTS_PER_MINUTE + 1 <==> Forgives(w.s, DoRetire(now, p), token)
  {
    var w1 := Step(w, DoRetire(now, p));
    var op := DoIssueProof(now, user, token, q, w.s.hub, c, true, secret);
    RetirementForgivesRate(w.s, now, user, token, p, q, c, secret);
    if Issues(w1.s, op) {
      assert DrawnIn(Step(w1, op), {}, token, now) == DrawnIn(w, {}, token, now) + {secret};
    } else {
      assert DrawnIn(Step(w1, op), {}, token, now) == DrawnIn(w, {}, token, now);
    }
  }
}
