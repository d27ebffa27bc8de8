/** What every run of the enrollment ledger keeps, with redemptions, replays,
    revocations and the store's own user and token changes in any order. */
module EnrollmentRuns {
  import opened Options
  import opened EnrollmentLedger

  datatype Op =
    | DoIssue(now: Time, b: BundleId, input: IssueInput, shaped: bool, nameOk: bool, code: Code)
    | DoRevoke(now: Time, b: BundleId)
    | DoRedeem(now: Time, req: Request, shaped: bool, m: Minted)
    | SetDisabled(u: UserId, disabled: bool)
    | RevokeToken(t: TokenId)
    | AddUser(u: UserId, user: User)
    | AddToken(t: TokenId, token: Token)

  predicate NewBearer(s: Ledger, bearer: string) { forall t :: t in s.tokens ==> s.tokens[t].bearer != bearer }

  /** Fresh identifiers and secrets are unique. */
  predicate Fresh(s: Ledger, op: Op) {
    match op
    case DoIssue(_, _, _, _, _, code) => code !in s.codes
    case DoRedeem(_, _, _, m) => m.user !in s.users && m.token !in s.tokens && NewBearer(s, m.bearer)
    case AddUser(u, _) => u !in s.users
    case AddToken(t, token) => t !in s.tokens && token.user in s.users && NewBearer(s, token.bearer)
    case _ => true
  }

  /** The tables and every answer a redemption request has had. */
  datatype World = World(s: Ledger, answers: seq<Answer>)

  function Tables(s: Ledger, op: Op): Ledger {
    match op
    case DoIssue(now, b, i, shaped, nameOk, code) => Issue(s, now, b, i, shaped, nameOk, code).0
    case DoRevoke(now, b) => Revoke(s, now, b).0
    case DoRedeem(now, req, shaped, m) => Redeem(s, now, req, shaped, m).0
    case SetDisabled(u, d) => if u in s.users then s.(users := s.users[u := s.users[u].(disabled := d)]) else s
    case RevokeToken(t) => if t in s.tokens then s.(tokens := s.tokens[t := s.tokens[t].(revoked := true)]) else s
    case AddUser(u, user) => s.(users := s.users[u := user])
    case AddToken(t, token) => s.(tokens := s.tokens[t := token])
  }

  function Step(w: World, op: Op): World {
    World(Tables(w.s, op),
          if op.DoRedeem? then w.answers + [Redeem(w.s, op.now, op.req, op.shaped, op.m).1] else w.answers)
  }

  ghost predicate Reaches(w: World, ops: seq<Op>, w': World)
    decreases |ops|
  {
    if ops == [] then w == w' else Fresh(w.s, ops[0]) && Reaches(Step(w, ops[0]), ops[1..], w')
  }

  // ---- invariants ----

  /** The code index names exactly the bundles. */
  ghost predicate Indexed(s: Ledger) {
    && (forall c :: c in s.codes ==> s.codes[c] in s.bundles && s.bundles[s.codes[c]].code == c)
    && (forall b :: b in s.bundles ==> s.bundles[b].code in s.codes && s.codes[s.bundles[b].code] == b)
  }

  /** A redemption's user and token exist, belong together, and are what the
      sealed delivery carries for the key that redeemed. */
  ghost predicate Backed(s: Ledger, b: BundleId, r: Redemption) {
    && r.user in s.users && r.token in s.tokens && s.tokens[r.token].user == r.user && s.tokens[r.token].userScoped
    && r.delivery == Sealed(r.key, Aad(s.hub, b, r.key, r.user, r.token),
                            Plain(s.tokens[r.token].bearer, r.user, r.token, s.hub))
    && r.input.key == r.key && r.input.hub == s.hub
  }

  ghost predicate RedemptionsSound(s: Ledger) {
    forall b :: b in s.bundles && s.bundles[b].redemption.Some? ==>
      s.bundles[b].revoked.None? && Backed(s, b, s.bundles[b].redemption.value)
  }

  /** No two bundles minted the same user or the same token. */
  ghost predicate OneBundlePerMint(s: Ledger) {
    forall b, c ::
      b in s.bundles && c in s.bundles && b != c && s.bundles[b].redemption.Some? && s.bundles[c].redemption.Some? ==>
      && s.bundles[b].redemption.value.user != s.bundles[c].redemption.value.user
      && s.bundles[b].redemption.value.token != s.bundles[c].redemption.value.token
  }

  ghost predicate Sound(s: Ledger) { Indexed(s) && RedemptionsSound(s) && OneBundlePerMint(s) }

  /** A successful answer shows the bundle's one redemption. */
  ghost predicate Shows(s: Ledger, a: Answer) {
    a.Success? ==>
      && a.bundle in s.bundles && s.bundles[a.bundle].redemption.Some?
      && var r := s.bundles[a.bundle].redemption.value;
         a.user == r.user && a.token == r.token && a.delivery == r.delivery && a.at == r.at
  }

  /** How many answers are first redemptions of a bundle. */
  ghost function Firsts(answers: seq<Answer>, b: BundleId): nat
    decreases |answers|
  {
    if answers == [] then 0
    else
      var last := answers[|answers| - 1];
      Firsts(answers[..|answers| - 1], b) + if last.Success? && last.bundle == b && !last.replayed then 1 else 0
  }

  ghost predicate Truthful(w: World) {
    && (forall a :: a in w.answers ==> Shows(w.s, a))
    && (forall b :: b in w.s.bundles ==>
          Firsts(w.answers, b) == if w.s.bundles[b].redemption.Some? then 1 else 0)
    && (forall b :: b !in w.s.bundles ==> Firsts(w.answers, b) == 0)
  }

  ghost predicate Initial(w: World) { w.s.bundles == map[] && w.s.codes == map[] && w.answers == [] }

  // ---- steps ----

  /** What a redemption was is never rewritten, and no bundle disappears. */
  ghost predicate WriteOnce(s: Ledger, s': Ledger) {
    && s'.hub == s.hub
    && forall b :: b in s.bundles ==>
         && b in s'.bundles
         && s'.bundles[b].code == s.bundles[b].code && s'.bundles[b].input == s.bundles[b].input
         && (s.bundles[b].redemption.Some? ==> s'.bundles[b] == s.bundles[b])
         && (s.bundles[b].revoked.Some? ==> s'.bundles[b] == s.bundles[b])
  }

  /** Users and tokens only come or change state; they keep who they are. */
  ghost predicate KeepsIdentities(s: Ledger, s': Ledger) {
    && s'.hub == s.hub && s.users.Keys <= s'.users.Keys
    && forall t :: t in s.tokens ==>
         && t in s'.tokens && s'.tokens[t].user == s.tokens[t].user && s'.tokens[t].bearer == s.tokens[t].bearer
         && s'.tokens[t].userScoped == s.tokens[t].userScoped
  }

  /** s' has no redemption that s does not have. */
  ghost predicate AddsNoRedemption(s: Ledger, s': Ledger) {
    forall b :: b in s'.bundles && s'.bundles[b].redemption.Some? ==> b in s.bundles && s'.bundles[b] == s.bundles[b]
  }

  lemma SoundWithoutMint(s: Ledger, s': Ledger)
    requires Sound(s) && Indexed(s') && KeepsIdentities(s, s') && AddsNoRedemption(s, s')
    ensures Sound(s')
  {
    forall b | b in s'.bundles && s'.bundles[b].redemption.Some?
      ensures s'.bundles[b].revoked.None? && Backed(s', b, s'.bundles[b].redemption.value)
    {
      assert Backed(s, b, s.bundles[b].redemption.value);
    }
  }

  /** What `Mint` needs of the tables it is run on. */
  ghost predicate CanMint(s: Ledger, req: Request, b: BundleId, m: Minted) {
    && b in s.bundles && s.bundles[b].redemption.None? && s.bundles[b].revoked.None?
    && req.hub == s.hub && m.user !in s.users && m.token !in s.tokens
  }

  lemma MintKeepsSound(s: Ledger, now: Time, req: Request, b: BundleId, m: Minted)
    requires Sound(s) && CanMint(s, req, b, m)
    ensures var s' := Mint(s, now, req, b, m).0; Sound(s') && WriteOnce(s, s')
  {
    MintKeepsIndex(s, now, req, b, m);
    MintStaysBacked(s, now, req, b, m);
    MintStaysSingle(s, now, req, b, m);
  }

  lemma MintKeepsIndex(s: Ledger, now: Time, req: Request, b: BundleId, m: Minted)
    requires Indexed(s) && CanMint(s, req, b, m)
    ensures var s' := Mint(s, now, req, b, m).0; Indexed(s') && WriteOnce(s, s') && KeepsIdentities(s, s')
  {
  }

  lemma BackedLater(s: Ledger, s': Ledger, b: BundleId, r: Redemption)
    requires Backed(s, b, r) && KeepsIdentities(s, s')
    ensures Backed(s', b, r)
  {
  }

  lemma MintStaysBacked(s: Ledger, now: Time, req: Request, b: BundleId, m: Minted)
    requires Indexed(s) && RedemptionsSound(s) && CanMint(s, req, b, m)
    ensures RedemptionsSound(Mint(s, now, req, b, m).0)
  {
    var s' := Mint(s, now, req, b, m).0;
    MintKeepsIndex(s, now, req, b, m);
    forall c | c in s'.bundles && s'.bundles[c].redemption.Some?
      ensures s'.bundles[c].revoked.None? && Backed(s', c, s'.bundles[c].redemption.value)
    {
      if c != b { BackedLater(s, s', c, s.bundles[c].redemption.value); }
    }
  }

  lemma MintStaysSingle(s: Ledger, now: Time, req: Request, b: BundleId, m: Minted)
    requires RedemptionsSound(s) && OneBundlePerMint(s) && CanMint(s, req, b, m)
    ensures OneBundlePerMint(Mint(s, now, req, b, m).0)
  {
    forall c | c in s.bundles && s.bundles[c].redemption.Some?
      ensures s.bundles[c].redemption.value.user != m.user && s.bundles[c].redemption.value.token != m.token
    {
      assert Backed(s, c, s.bundles[c].redemption.value);
    }
  }

  lemma RedeemKeepsSound(s: Ledger, now: Time, req: Request, shaped: bool, m: Minted)
    requires Sound(s) && Fresh(s, DoRedeem(now, req, shaped, m))
    ensures var s' := Redeem(s, now, req, shaped, m).0; Sound(s') && WriteOnce(s, s')
  {
    var (s', a) := Redeem(s, now, req, shaped, m);
    if a.Success? && !a.replayed {
      MintKeepsSound(s, now, req, a.bundle, m);
    } else {
      RefusalOnlyAudits(s, now, req, shaped, m);
      SoundWithoutMint(s, s');
    }
  }

  /** Bundles keep their redemption; a new bundle has none. */
  ghost predicate SameRedemptions(s: Ledger, s': Ledger) {
    && (forall b :: b in s.bundles ==> b in s'.bundles && s'.bundles[b].redemption == s.bundles[b].redemption)
    && (forall b :: b in s'.bundles && b !in s.bundles ==> s'.bundles[b].redemption.None?)
  }

  /** What every step but a redemption does to the tables. */
  ghost predicate MintsNothing(s: Ledger, s': Ledger) {
    Indexed(s') && KeepsIdentities(s, s') && AddsNoRedemption(s, s') && WriteOnce(s, s') && SameRedemptions(s, s')
  }

  lemma OtherOpsMintNothing(s: Ledger, op: Op)
    requires Sound(s) && Fresh(s, op) && !op.DoRedeem?
    ensures MintsNothing(s, Tables(s, op))
  {
    if op.DoIssue? {
      var (s', a) := Issue(s, op.now, op.b, op.input, op.shaped, op.nameOk, op.code);
      if a.IssueOk? { InsertMintsNothing(s, op.b, Bundle(op.code, op.input, None, None)); } else { SameBundlesMintNothing(s, s'); }
    } else if op.DoRevoke? {
      if op.b in s.bundles && StateOf(op.now, s.bundles[op.b]).StIssued? { RevokeMintsNothing(s, op.now, op.b); }
      else { SameBundlesMintNothing(s, Tables(s, op)); }
    } else {
      SameBundlesMintNothing(s, Tables(s, op));
    }
  }

  lemma SameBundlesMintNothing(s: Ledger, s': Ledger)
    requires Indexed(s) && s'.bundles == s.bundles && s'.codes == s.codes && KeepsIdentities(s, s')
    ensures MintsNothing(s, s')
  {
  }

  lemma InsertMintsNothing(s: Ledger, b: BundleId, row: Bundle)
    requires Indexed(s) && b !in s.bundles && row.code !in s.codes && row.redemption.None?
    ensures MintsNothing(s, s.(bundles := s.bundles[b := row], codes := s.codes[row.code := b]).Note(Issued(b)))
  {
    InsertKeepsIndex(s, b, row);
  }

  lemma InsertKeepsIndex(s: Ledger, b: BundleId, row: Bundle)
    requires Indexed(s) && b !in s.bundles && row.code !in s.codes
    ensures Indexed(s.(bundles := s.bundles[b := row], codes := s.codes[row.code := b]).Note(Issued(b)))
  {
  }

  lemma RevokeMintsNothing(s: Ledger, now: Time, b: BundleId)
    requires Sound(s) && b in s.bundles && StateOf(now, s.bundles[b]).StIssued?
    ensures MintsNothing(s, Revoke(s, now, b).0)
  {
    RevokedMintsNothing(s, b, s.bundles[b].(revoked := Some(Seconds(now))));
  }

  lemma RevokedMintsNothing(s: Ledger, b: BundleId, row: Bundle)
    requires Indexed(s) && b in s.bundles && row == s.bundles[b].(revoked := row.revoked) && s.bundles[b].revoked.None?
    requires row.redemption.None?
    ensures MintsNothing(s, s.(bundles := s.bundles[b := row]).Note(RevokedBundle(b)))
  {
    var s' := s.(bundles := s.bundles[b := row]).Note(RevokedBundle(b));
    assert Indexed(s') && WriteOnce(s, s');
    assert AddsNoRedemption(s, s') && SameRedemptions(s, s');
  }

  lemma StepKeepsSound(s: Ledger, op: Op)
    requires Sound(s) && Fresh(s, op)
    ensures Sound(Tables(s, op)) && WriteOnce(s, Tables(s, op))
  {
    if op.DoRedeem? {
      RedeemKeepsSound(s, op.now, op.req, op.shaped, op.m);
    } else {
      OtherOpsMintNothing(s, op);
      SoundWithoutMint(s, Tables(s, op));
    }
  }

  lemma ShowLater(s: Ledger, s': Ledger, answers: seq<Answer>)
    requires (forall a :: a in answers ==> Shows(s, a)) && WriteOnce(s, s')
    ensures forall a :: a in answers ==> Shows(s', a)
  {
    forall a | a in answers ensures Shows(s', a) { assert Shows(s, a); }
  }

  lemma StepKeepsTruthful(w: World, op: Op)
    requires Sound(w.s) && Truthful(w) && Fresh(w.s, op)
    ensures Truthful(Step(w, op))
  {
    StepKeepsSound(w.s, op);
    ShowLater(w.s, Tables(w.s, op), w.answers);
    if op.DoRedeem? {
      RedeemStaysTruthful(w, op.now, op.req, op.shaped, op.m);
    } else {
      OtherOpsMintNothing(w.s, op);
    }
  }

  lemma FirstsGrow(answers: seq<Answer>, a: Answer, b: BundleId)
    ensures Firsts(answers + [a], b) ==
            Firsts(answers, b) + if a.Success? && a.bundle == b && !a.replayed then 1 else 0
  {
    assert (answers + [a])[..|answers|] == answers;
  }

  lemma RedeemStaysTruthful(w: World, now: Time, req: Request, shaped: bool, m: Minted)
    requires Sound(w.s) && Truthful(w) && Fresh(w.s, DoRedeem(now, req, shaped, m))
    requires forall a :: a in w.answers ==> Shows(Redeem(w.s, now, req, shaped, m).0, a)
    ensures Truthful(Step(w, DoRedeem(now, req, shaped, m)))
  {
    var (s', a) := Redeem(w.s, now, req, shaped, m);
    AnswerIsShown(w.s, now, req, shaped, m);
    RefusalOnlyAudits(w.s, now, req, shaped, m);
    AnswerCounts(w, s', a);
  }

  lemma AnswerIsShown(s: Ledger, now: Time, req: Request, shaped: bool, m: Minted)
    ensures Shows(Redeem(s, now, req, shaped, m).0, Redeem(s, now, req, shaped, m).1)
  {
  }

  /** One more answer: it marks a bundle redeemed for the first time exactly
      when it is not a replay. */
  lemma AnswerCounts(w: World, s': Ledger, a: Answer)
    requires Truthful(w) && Shows(s', a) && forall b :: b in w.answers ==> Shows(s', b)
    requires if a.Success? && !a.replayed then
               && a.bundle in w.s.bundles && w.s.bundles[a.bundle].redemption.None?
               && s'.bundles.Keys == w.s.bundles.Keys
               && forall b :: b in w.s.bundles && b != a.bundle ==> s'.bundles[b] == w.s.bundles[b]
             else s'.bundles == w.s.bundles
    ensures Truthful(World(s', w.answers + [a]))
  {
    forall b ensures Firsts(w.answers + [a], b) ==
                     Firsts(w.answers, b) + if a.Success? && a.bundle == b && !a.replayed then 1 else 0
    {
      FirstsGrow(w.answers, a, b);
    }
  }

  lemma {:induction false} RunIsSound(w: World, ops: seq<Op>, w': World)
    requires Sound(w.s) && Truthful(w) && Reaches(w, ops, w')
    ensures Sound(w'.s) && Truthful(w') && WriteOnce(w.s, w'.s)
    decreases |ops|
  {
    if ops != [] {
      StepKeepsSound(w.s, ops[0]);
      StepKeepsTruthful(w, ops[0]);
      RunIsSound(Step(w, ops[0]), ops[1..], w');
    }
  }

  // ---- the ledger's promises ----

  /** Over every run: no bundle is both redeemed and revoked, redeemed bundles
      and their users and tokens correspond one to one, every successful answer
      for a bundle shows the same user, token, ciphertext and time, and exactly
      one of them is not a replay. */
  lemma LedgerPromises(w0: World, ops: seq<Op>, w: World)
    requires Initial(w0) && Reaches(w0, ops, w)
    ensures RedemptionsSound(w.s) && OneBundlePerMint(w.s)
    ensures forall a, a' :: a in w.answers && a' in w.answers && a.Success? && a'.Success? && a.bundle == a'.bundle ==>
              a == a'.(replayed := a.replayed)
    ensures forall a :: a in w.answers && a.Success? ==> Firsts(w.answers, a.bundle) == 1
  {
    RunIsSound(w0, ops, w);
    forall a | a in w.answers && a.Success? ensures Firsts(w.answers, a.bundle) == 1 { assert Shows(w.s, a); }
    forall a, a' | a in w.answers && a' in w.answers && a.Success? && a'.Success? && a.bundle == a'.bundle
      ensures a == a'.(replayed := a.replayed)
    {
      assert Shows(w.s, a) && Shows(w.s, a');
    }
  }

  /** Once redeemed, a bundle's row never changes again, whatever follows. */
  lemma RedemptionIsFinal(w0: World, ops: seq<Op>, w: World, later: seq<Op>, w': World, b: BundleId)
    requires Initial(w0) && Reaches(w0, ops, w) && Reaches(w, later, w')
    requires b in w.s.bundles && (w.s.bundles[b].redemption.Some? || w.s.bundles[b].revoked.Some?)
    ensures b in w'.s.bundles && w'.s.bundles[b] == w.s.bundles[b]
  {
    RunIsSound(w0, ops, w);
    RunIsSound(w, later, w');
  }

  /** A refused redemption and a replay change the audit alone; a first success
      is the only answer that changes a table, and it changes one bundle. */
  lemma RefusalOnlyAudits(s: Ledger, now: Time, req: Request, shaped: bool, m: Minted)
    ensures var (s', a) := Redeem(s, now, req, shaped, m);
            if a.Success? && !a.replayed then
              && a.bundle in s.bundles && s.bundles[a.bundle].redemption.None? && s.bundles[a.bundle].revoked.None?
              && s'.bundles.Keys == s.bundles.Keys
              && forall b :: b in s.bundles && b != a.bundle ==> s'.bundles[b] == s.bundles[b]
            else s'.SameTables(s) && s.audit <= s'.audit && (|s'.audit| > |s.audit| <==> shaped)
  {
  }

  /** Past the retention every request on a spent code gets the same refusal:
      nothing tells it from an unknown code. */
  lemma SpentCodeIsInvalid(s: Ledger, now: Time, req: Request, m: Minted)
    requires Sound(s) && req.code in s.codes
    requires var row := s.bundles[s.codes[req.code]];
             row.redemption.Some? && now >= row.redemption.value.at * SECOND + RETENTION
    ensures Redeem(s, now, req, true, m).1 == Invalid
    ensures forall code :: code !in s.codes ==>
              Redeem(s, now, req.(code := code), true, m).1 == Redeem(s, now, req, true, m).1
  {
  }

  /** A request is answered by a first redemption exactly when its code names
      an issued, unexpired new-user bundle of this hub, and by a replay exactly
      when it repeats the redeeming request within the retention while the token
      is active. */
  lemma RedeemAnswersExactly(s: Ledger, now: Time, req: Request, m: Minted)
    requires Sound(s)
    ensures var a := Redeem(s, now, req, true, m).1;
            && (a.Success? && !a.replayed <==>
                && req.code in s.codes && req.hub == s.hub
                && var row := s.bundles[s.codes[req.code]];
                   StateOf(now, row) == StIssued && row.input.purpose == NewUser)
            && (a.Success? && a.replayed <==>
                && req.code in s.codes && req.hub == s.hub
                && var row := s.bundles[s.codes[req.code]];
                   && row.redemption.Some?
                   && var r := row.redemption.value;
                      && now < r.at * SECOND + RETENTION && r.key == req.key && r.input == req.Digest()
                      && TokenActive(s, now, r.token))
  {
  }
}
