/** What every interleaving of `enroll redeem` runs keeps. */
module EnrollSafety {
  import opened Options
  import opened EnrollmentLedger
  import Runs = EnrollmentRuns
  import opened EnrollClient

  function RedemptionOf(w: World): Option<Redemption> {
    if w.rec.bundle in w.hub.bundles then w.hub.bundles[w.rec.bundle].redemption else None
  }

  ghost predicate HubSound(w: World) {
    && Runs.Sound(w.hub) && OneTokenPerBearer(w.hub)
    && w.rec.hub == w.hub.hub && w.rec.code in w.hub.codes && w.hub.codes[w.rec.code] == w.rec.bundle
    && NothingToKeep(w)
    && forall req :: req in w.sent ==> req.code == w.rec.code && req.hub == w.rec.hub
  }

  // ---- before the bundle is redeemed ----

  /** The key a run would send or has sent. */
  function HeldKey(pc: Pc): Option<Key> {
    match pc
    case Created(k) => Some(k)
    case Talking(k) => Some(k)
    case Waiting(k) => Some(k)
    case Contested(k) => Some(k)
    case _ => None
  }

  predicate PendingHolds(w: World, key: Key) { w.disk.pending.Some? && w.disk.pending.value.key == key }

  ghost predicate EarlyPc(w: World, pc: Pc) {
    && !pc.Opened? && !pc.Recorded? && !pc.Stored? && !pc.Removing? && !pc.Finished? && !pc.Verifying?
    && (pc.Loaded? ==> pc.entry0 == w.stale)
    && (pc.NoPending? ==> Some(pc.bearer) == w.stale)
    && (HeldKey(pc).Some? ==> PendingHolds(w, HeldKey(pc).value))
  }

  /** Every key in use anywhere is the one the pending file holds. */
  ghost predicate Before(w: World) {
    && w.disk.entry == w.stale
    && (w.disk.pending.Some? ==> w.disk.pending.value.phase == Sending)
    && (forall r :: r in w.runs ==> EarlyPc(w, w.runs[r].pc))
    && (forall req :: req in w.sent ==> PendingHolds(w, req.key))
    && (forall qa :: qa in w.answers ==> !qa.1.Success?)
  }

  // ---- after ----

  function Bearer(rr: Redemption): string { rr.delivery.plain.bearer }

  predicate Holds(w: World, rr: Redemption) { w.disk.entry == Some(Bearer(rr)) }

  /** An entry a run has read: the stale one, or the minted one now stored. */
  predicate SeenEntry(w: World, rr: Redemption, e: Option<string>) { e == w.stale || (e == Some(Bearer(rr)) && Holds(w, rr)) }

  ghost predicate LatePc(w: World, rr: Redemption, pc: Pc) {
    match pc
    case Loaded(e) => SeenEntry(w, rr, e)
    case NoPending(b) => SeenEntry(w, rr, Some(b))
    case Verifying(p, b) => p == Pending(Delivered, rr.key, rr.user, rr.token) && SeenEntry(w, rr, Some(b))
    case Opened(k, plain) => k == rr.key && plain == rr.delivery.plain
    case Recorded(k, plain) => k == rr.key && plain == rr.delivery.plain
    case Stored(plain) => plain == rr.delivery.plain && Holds(w, rr)
    case Removing(_, u, t) => u == rr.user && t == rr.token && Holds(w, rr)
    case Finished(_, u, t) => u == rr.user && t == rr.token && Holds(w, rr)
    case _ => true
  }

  ghost predicate AnswerShows(rr: Redemption, w: World, req: Request, a: Answer) {
    a.Success? ==>
      a.bundle == w.rec.bundle && req.key == rr.key && a.user == rr.user && a.token == rr.token && a.delivery == rr.delivery
  }

  /** The redeeming key is in the pending file, or its token in the hub entry. */
  predicate Recoverable(w: World, rr: Redemption) { PendingHolds(w, rr.key) || Holds(w, rr) }

  predicate LateDisk(w: World, rr: Redemption) {
    && Recoverable(w, rr)
    && (w.disk.entry == w.stale || Holds(w, rr))
    && (w.disk.pending.Some? && w.disk.pending.value.phase == Delivered ==>
          w.disk.pending.value == Pending(Delivered, rr.key, rr.user, rr.token))
  }

  ghost predicate After(w: World, rr: Redemption) {
    && Some(Bearer(rr)) != w.stale
    && LateDisk(w, rr)
    && (forall qa :: qa in w.answers ==> AnswerShows(rr, w, qa.0, qa.1))
    && (forall r :: r in w.runs ==> LatePc(w, rr, w.runs[r].pc))
  }

  ghost predicate Inv(w: World) {
    HubSound(w) && if RedemptionOf(w).None? then Before(w) else After(w, RedemptionOf(w).value)
  }

  // ---- the hub's own steps ----

  lemma BearerNames(w: World, now: Time, bearer: string, t: TokenId)
    requires HubSound(w) && w.since <= now && Truthful(w.hub, now, bearer, Accepted(t))
    ensures Some(bearer) != w.stale
    ensures RedemptionOf(w).Some? && bearer == Bearer(RedemptionOf(w).value) ==>
              t == RedemptionOf(w).value.token && w.hub.tokens[t].user == RedemptionOf(w).value.user
  {
    if RedemptionOf(w).Some? { assert Runs.Backed(w.hub, w.rec.bundle, RedemptionOf(w).value); }
  }

  ghost predicate BearersSound(s: Ledger, since: Time, stale: Option<string>) {
    OneTokenPerBearer(s) && (stale.Some? ==> Dead(s, since, stale.value))
  }

  lemma RedeemKeepsBearers(s: Ledger, now: Time, req: Request, shaped: bool, m: Minted, since: Time, stale: Option<string>)
    requires BearersSound(s, since, stale) && Runs.Fresh(s, Runs.DoRedeem(now, req, shaped, m)) && Some(m.bearer) != stale
    ensures BearersSound(Redeem(s, now, req, shaped, m).0, since, stale)
  {
    var (s', a) := Redeem(s, now, req, shaped, m);
    if a.Success? && !a.replayed {
      assert s'.tokens == s.tokens[m.token := s'.tokens[m.token]] && s'.tokens[m.token].bearer == m.bearer;
    } else {
      assert s'.tokens == s.tokens;
    }
  }

  lemma OtherOpsKeepBearers(w: World, op: Runs.Op)
    requires BearersSound(w.hub, w.since, w.stale) && FreshOp(w, op) && !op.DoRedeem?
    ensures BearersSound(Runs.Tables(w.hub, op), w.since, w.stale)
  {
    var s, s' := w.hub, Runs.Tables(w.hub, op);
    match op
    case AddToken(t, token) => assert s'.tokens == s.tokens[t := token];
    case RevokeToken(t) =>
    case DoIssue(_, _, _, _, _, _) => assert s'.tokens == s.tokens;
    case DoRevoke(_, _) => assert s'.tokens == s.tokens;
    case SetDisabled(_, _) => assert s'.tokens == s.tokens;
    case AddUser(_, _) => assert s'.tokens == s.tokens;
  }

  /** Whatever the tables become, the record still names its bundle. */
  lemma RecordStaysIndexed(w: World, s': Ledger)
    requires HubSound(w) && Runs.Sound(s') && Runs.WriteOnce(w.hub, s')
    ensures s'.hub == w.rec.hub && w.rec.code in s'.codes && s'.codes[w.rec.code] == w.rec.bundle
    ensures w.rec.bundle in s'.bundles
  {
    assert w.hub.bundles[w.rec.bundle].code == w.rec.code;
  }

  lemma HubOpKeeps(w: World, op: Runs.Op)
    requires HubSound(w) && FreshOp(w, op)
    ensures var w' := Step(w, HubOp(op)); HubSound(w') && RedemptionOf(w') == RedemptionOf(w)
  {
    var s' := Runs.Tables(w.hub, op);
    Runs.StepKeepsSound(w.hub, op);
    RecordStaysIndexed(w, s');
    if op.DoRedeem? { ForeignRedeemKeeps(w, op); } else { OtherOpKeeps(w, op); }
    assert Step(w, HubOp(op)) == w.(hub := s');
  }

  lemma ForeignRedeemKeeps(w: World, op: Runs.Op)
    requires HubSound(w) && FreshOp(w, op) && op.DoRedeem?
    ensures var s' := Runs.Tables(w.hub, op);
            && BearersSound(s', w.since, w.stale)
            && w.rec.bundle in s'.bundles && s'.bundles[w.rec.bundle] == w.hub.bundles[w.rec.bundle]
  {
    RedeemKeepsBearers(w.hub, op.now, op.req, op.shaped, op.m, w.since, w.stale);
    OtherCodeOtherBundle(w.hub, op.now, op.req, op.shaped, op.m, w.rec.bundle);
  }

  lemma OtherOpKeeps(w: World, op: Runs.Op)
    requires HubSound(w) && FreshOp(w, op) && !op.DoRedeem?
    ensures var s' := Runs.Tables(w.hub, op);
            && BearersSound(s', w.since, w.stale)
            && w.rec.bundle in s'.bundles
            && s'.bundles[w.rec.bundle].redemption == w.hub.bundles[w.rec.bundle].redemption
  {
    OtherOpsKeepBearers(w, op);
    Runs.OtherOpsMintNothing(w.hub, op);
  }

  lemma OtherCodeOtherBundle(s: Ledger, now: Time, req: Request, shaped: bool, m: Minted, b: BundleId)
    requires Runs.Sound(s) && b in s.bundles && req.code != s.bundles[b].code
    ensures var s' := Redeem(s, now, req, shaped, m).0;
            b in s'.bundles && s'.bundles[b] == s.bundles[b]
  {
    Runs.RefusalOnlyAudits(s, now, req, shaped, m);
  }

  /** The hub answers a request of this bundle: a first redemption records the
      request's key, anything else leaves the redemption as it was. */
  lemma HandleKeeps(w: World, req: Request, now: Time, m: Minted)
    requires HubSound(w) && Possible(w, HubHandles(req, now, m))
    ensures var w' := Step(w, HubHandles(req, now, m));
            var a := Redeem(w.hub, now, req, true, m).1;
            && HubSound(w')
            && (if RedemptionOf(w') == RedemptionOf(w) then true
                else
                  && RedemptionOf(w).None? && RedemptionOf(w').Some?
                  && RedemptionOf(w').value.key == req.key && Bearer(RedemptionOf(w').value) == m.bearer)
            && (a.Success? ==> RedemptionOf(w').Some? && AnswerShows(RedemptionOf(w').value, w', req, a))
  {
    HandleKeepsHub(w, req, now, m);
    HandleShows(w, req, now, m);
  }

  lemma HandleKeepsHub(w: World, req: Request, now: Time, m: Minted)
    requires HubSound(w) && Possible(w, HubHandles(req, now, m))
    ensures HubSound(Step(w, HubHandles(req, now, m)))
  {
    Runs.RedeemKeepsSound(w.hub, now, req, true, m);
    RedeemKeepsBearers(w.hub, now, req, true, m, w.since, w.stale);
    RecordStaysIndexed(w, Redeem(w.hub, now, req, true, m).0);
  }

  lemma HandleShows(w: World, req: Request, now: Time, m: Minted)
    requires HubSound(w) && Possible(w, HubHandles(req, now, m))
    ensures var w' := Step(w, HubHandles(req, now, m));
            var a := Redeem(w.hub, now, req, true, m).1;
            && (if RedemptionOf(w') == RedemptionOf(w) then true
                else
                  && RedemptionOf(w).None? && RedemptionOf(w').Some?
                  && RedemptionOf(w').value.key == req.key && Bearer(RedemptionOf(w').value) == m.bearer)
            && (a.Success? ==> RedemptionOf(w').Some? && AnswerShows(RedemptionOf(w').value, w', req, a))
  {
    assert w.hub.codes[req.code] == w.rec.bundle;
  }

  // ---- a run's own steps ----

  /** Steps that neither the hub nor the disk takes part in beforehand. */
  predicate HubAct(a: Act) { a.HubHandles? || a.HubOp? }

  /** w' differs from w in run r, and perhaps in the disk, the drawn keys and
      the requests sent. */
  ghost predicate Moves(w: World, w': World, r: RunId, pc: Pc) {
    && w'.rec == w.rec && w'.since == w.since && w'.stale == w.stale && w'.hub == w.hub && w'.answers == w.answers
    && r in w'.runs && w'.runs == w.runs[r := w'.runs[r]] && w'.runs[r].pc == pc
  }

  lemma LateMove(w: World, w': World, r: RunId, pc: Pc, rr: Redemption)
    requires After(w, rr) && Moves(w, w', r, pc)
    requires LateDisk(w', rr) && (Holds(w, rr) ==> Holds(w', rr)) && LatePc(w', rr, pc)
    ensures After(w', rr)
  {
    forall q | q in w'.runs ensures LatePc(w', rr, w'.runs[q].pc) {
      if q != r { assert LatePc(w, rr, w.runs[q].pc); }
    }
    forall qa | qa in w'.answers ensures AnswerShows(rr, w', qa.0, qa.1) { assert AnswerShows(rr, w, qa.0, qa.1); }
  }

  lemma EarlyMove(w: World, w': World, r: RunId, pc: Pc)
    requires Before(w) && Moves(w, w', r, pc)
    requires w'.disk.entry == w.disk.entry && (w'.disk.pending == w.disk.pending || w.disk.pending.None?)
    requires w'.disk.pending.Some? ==> w'.disk.pending.value.phase == Sending
    requires EarlyPc(w', pc)
    requires forall req :: req in w'.sent ==> PendingHolds(w', req.key)
    ensures Before(w')
  {
    forall q | q in w'.runs ensures EarlyPc(w', w'.runs[q].pc) {
      if q != r { assert EarlyPc(w, w.runs[q].pc); }
    }
  }

  /** Acts in which a run asks the hub whose bearer it holds. */
  predicate Asks(a: Act) { a.CheckEntry? || a.Recheck? || a.Verify? || a.FinalCheck? }

  lemma EarlyAsk(w: World, a: Act)
    requires HubSound(w) && RedemptionOf(w).None? && Before(w) && Possible(w, a) && Asks(a)
    ensures Before(Step(w, a))
  {
    var w' := Step(w, a);
    assert EarlyPc(w, w.runs[a.r].pc);
    if a.reply.Accepted? {
      if a.CheckEntry? { BearerNames(w, a.now, w.runs[a.r].pc.bearer, a.reply.of); }
      if a.Recheck? && w.disk.entry.Some? { BearerNames(w, a.now, w.disk.entry.value, a.reply.of); }
    }
    EarlyMove(w, w', a.r, w'.runs[a.r].pc);
  }

  lemma EarlyTell(w: World, a: Act)
    requires HubSound(w) && RedemptionOf(w).None? && Before(w) && Possible(w, a) && !Asks(a) && !HubAct(a)
    ensures Before(Step(w, a))
  {
    var w' := Step(w, a);
    if !a.Begin? { assert EarlyPc(w, w.runs[a.r].pc); }
    if a.Receive? {
      assert !(RequestOf(w, w.runs[a.r].installation, w.runs[a.r].pc.key), a.answer).1.Success?;
    }
    EarlyMove(w, w', a.r, w'.runs[a.r].pc);
  }

  lemma LateAsk(w: World, a: Act, rr: Redemption)
    requires HubSound(w) && RedemptionOf(w) == Some(rr) && After(w, rr) && Possible(w, a) && Asks(a)
    ensures After(Step(w, a), rr)
  {
    var w' := Step(w, a);
    assert LatePc(w, rr, w.runs[a.r].pc);
    if a.Recheck? { LateRecheck(w, a, rr); } else { LateCheck(w, a, rr); }
    LateMove(w, w', a.r, w'.runs[a.r].pc, rr);
  }

  lemma LateRecheck(w: World, a: Act, rr: Redemption)
    requires HubSound(w) && RedemptionOf(w) == Some(rr) && After(w, rr) && a.Recheck? && Possible(w, a)
    ensures LatePc(Step(w, a), rr, Step(w, a).runs[a.r].pc)
  {
    if a.reply.Accepted? && w.disk.entry.Some? { BearerNames(w, a.now, w.disk.entry.value, a.reply.of); }
  }

  lemma LateCheck(w: World, a: Act, rr: Redemption)
    requires HubSound(w) && RedemptionOf(w) == Some(rr) && After(w, rr) && Possible(w, a)
    requires (a.CheckEntry? || a.Verify? || a.FinalCheck?) && LatePc(w, rr, w.runs[a.r].pc)
    ensures LatePc(Step(w, a), rr, Step(w, a).runs[a.r].pc)
  {
    if a.reply.Accepted? {
      BearerNames(w, a.now, if a.FinalCheck? then w.runs[a.r].pc.plain.bearer else w.runs[a.r].pc.bearer, a.reply.of);
    }
  }

  lemma LateTell(w: World, a: Act, rr: Redemption)
    requires HubSound(w) && RedemptionOf(w) == Some(rr) && After(w, rr) && Possible(w, a) && !Asks(a) && !HubAct(a)
    ensures After(Step(w, a), rr)
  {
    if !a.Begin? { assert LatePc(w, rr, w.runs[a.r].pc); }
    if a.Receive? { LateReceive(w, a, rr); } else if Writes(a) { LateWrite(w, a, rr); } else { LateQuiet(w, a, rr); }
  }

  /** Acts that write the files. */
  predicate Writes(a: Act) { a.CreatePending? || a.RecordDelivery? || a.StoreCredential? || a.RemovePending? }

  lemma LateReceive(w: World, a: Act, rr: Redemption)
    requires HubSound(w) && RedemptionOf(w) == Some(rr) && After(w, rr) && a.Receive? && Possible(w, a)
    ensures After(Step(w, a), rr)
  {
    var w' := Step(w, a);
    assert Runs.Backed(w.hub, w.rec.bundle, rr);
    assert AnswerShows(rr, w, RequestOf(w, w.runs[a.r].installation, w.runs[a.r].pc.key), a.answer);
    LateMove(w, w', a.r, w'.runs[a.r].pc, rr);
  }

  lemma LateWrite(w: World, a: Act, rr: Redemption)
    requires HubSound(w) && RedemptionOf(w) == Some(rr) && After(w, rr) && Writes(a) && Possible(w, a)
    requires LatePc(w, rr, w.runs[a.r].pc)
    ensures After(Step(w, a), rr)
  {
    var w' := Step(w, a);
    assert Runs.Backed(w.hub, w.rec.bundle, rr);
    LateMove(w, w', a.r, w'.runs[a.r].pc, rr);
  }

  lemma LateQuiet(w: World, a: Act, rr: Redemption)
    requires After(w, rr) && Possible(w, a) && !Asks(a) && !HubAct(a) && !a.Receive? && !Writes(a)
    requires a.Begin? || LatePc(w, rr, w.runs[a.r].pc)
    ensures After(Step(w, a), rr)
  {
    var w' := Step(w, a);
    LateMove(w, w', a.r, w'.runs[a.r].pc, rr);
  }

  /** The redemption itself: the pending file holds the key that redeemed. */
  lemma RedemptionIsRecoverable(w: World, w': World, rr: Redemption)
    requires Before(w) && w' == w.(hub := w'.hub, answers := w'.answers)
    requires PendingHolds(w, rr.key) && Some(Bearer(rr)) != w.stale
    requires forall qa :: qa in w'.answers ==> qa in w.answers || AnswerShows(rr, w', qa.0, qa.1)
    ensures After(w', rr)
  {
    forall r | r in w'.runs ensures LatePc(w', rr, w'.runs[r].pc) { assert EarlyPc(w, w.runs[r].pc); }
  }

  lemma HandleKeepsInv(w: World, req: Request, now: Time, m: Minted)
    requires Inv(w) && Possible(w, HubHandles(req, now, m))
    ensures Inv(Step(w, HubHandles(req, now, m)))
  {
    var w' := Step(w, HubHandles(req, now, m));
    HandleKeeps(w, req, now, m);
    if RedemptionOf(w).Some? {
      var rr := RedemptionOf(w).value;
      forall qa | qa in w'.answers ensures AnswerShows(rr, w', qa.0, qa.1) {
        if qa in w.answers { assert AnswerShows(rr, w, qa.0, qa.1); }
      }
      forall r | r in w'.runs ensures LatePc(w', rr, w'.runs[r].pc) { assert LatePc(w, rr, w.runs[r].pc); }
    } else if RedemptionOf(w').Some? {
      RedemptionIsRecoverable(w, w', RedemptionOf(w').value);
    } else {
      forall r | r in w'.runs ensures EarlyPc(w', w'.runs[r].pc) { assert EarlyPc(w, w.runs[r].pc); }
    }
  }

  lemma HubOpKeepsInv(w: World, op: Runs.Op)
    requires Inv(w) && FreshOp(w, op)
    ensures Inv(Step(w, HubOp(op)))
  {
    var w' := Step(w, HubOp(op));
    HubOpKeeps(w, op);
    if RedemptionOf(w).Some? {
      var rr := RedemptionOf(w).value;
      forall r | r in w'.runs ensures LatePc(w', rr, w'.runs[r].pc) { assert LatePc(w, rr, w.runs[r].pc); }
      forall qa | qa in w'.answers ensures AnswerShows(rr, w', qa.0, qa.1) { assert AnswerShows(rr, w, qa.0, qa.1); }
    } else {
      forall r | r in w'.runs ensures EarlyPc(w', w'.runs[r].pc) { assert EarlyPc(w, w.runs[r].pc); }
    }
  }

  /** The same hub, and only this record's requests sent since. */
  ghost predicate SameHub(w: World, w': World) {
    && w'.rec == w.rec && w'.since == w.since && w'.stale == w.stale && w'.hub == w.hub
    && forall req :: req in w'.sent ==> req in w.sent || (req.code == w.rec.code && req.hub == w.rec.hub)
  }

  lemma RunActLeavesHub(w: World, a: Act)
    requires Possible(w, a) && !HubAct(a)
    ensures SameHub(w, Step(w, a))
  {
  }

  lemma SameHubIsSound(w: World, w': World)
    requires HubSound(w) && SameHub(w, w')
    ensures HubSound(w') && RedemptionOf(w') == RedemptionOf(w)
  {
  }

  lemma RunActKeepsHub(w: World, a: Act)
    requires HubSound(w) && Possible(w, a) && !HubAct(a)
    ensures var w' := Step(w, a); HubSound(w') && RedemptionOf(w') == RedemptionOf(w)
  {
    RunActLeavesHub(w, a);
    SameHubIsSound(w, Step(w, a));
  }

  lemma StepKeepsInv(w: World, a: Act)
    requires Inv(w) && Possible(w, a)
    ensures Inv(Step(w, a))
  {
    if a.HubHandles? {
      HandleKeepsInv(w, a.req, a.now, a.m);
    } else if a.HubOp? {
      HubOpKeepsInv(w, a.op);
    } else {
      RunActKeepsHub(w, a);
      if RedemptionOf(w).None? {
        if Asks(a) { EarlyAsk(w, a); } else { EarlyTell(w, a); }
      } else {
        if Asks(a) { LateAsk(w, a, RedemptionOf(w).value); } else { LateTell(w, a, RedemptionOf(w).value); }
      }
    }
  }

  lemma {:induction false} RunKeepsInv(w: World, acts: seq<Act>, w': World)
    requires Inv(w) && Reaches(w, acts, w')
    ensures Inv(w')
    decreases |acts|
  {
    if acts != [] {
      StepKeepsInv(w, acts[0]);
      RunKeepsInv(Step(w, acts[0]), acts[1..], w');
    }
  }

  // ---- the theorems ----

  /** Crash-safe enrollment: whatever runs start, overlap, stop or lose their
      messages, once the hub has redeemed the bundle with a key, the pending file
      still holds that key or the hub entry holds the token it minted. */
  lemma EnrollmentIsRecoverable(w0: World, acts: seq<Act>, w: World)
    requires Initial(w0) && Reaches(w0, acts, w)
    ensures RedemptionOf(w).Some? ==> Recoverable(w, RedemptionOf(w).value)
  {
    RunKeepsInv(w0, acts, w);
  }

  lemma NoneFinishedBefore(w: World, r: RunId)
    requires Before(w) && r in w.runs
    ensures !w.runs[r].pc.Finished?
  {
    assert EarlyPc(w, w.runs[r].pc);
  }

  /** Every run that finishes reports the one identity the bundle minted, and
      leaves that identity's bearer in the hub entry. */
  lemma OneIdentity(w0: World, acts: seq<Act>, w: World, r: RunId)
    requires Initial(w0) && Reaches(w0, acts, w)
    requires r in w.runs && w.runs[r].pc.Finished?
    ensures RedemptionOf(w).Some?
    ensures var rr := RedemptionOf(w).value;
            && w.runs[r].pc.user == rr.user && w.runs[r].pc.token == rr.token
            && rr.token in w.hub.tokens && w.hub.tokens[rr.token].user == rr.user
            && w.disk.entry == Some(w.hub.tokens[rr.token].bearer)
  {
    RunKeepsInv(w0, acts, w);
    if RedemptionOf(w).None? { NoneFinishedBefore(w, r); } else { FinishedShows(w, r); }
  }

  lemma FinishedShows(w: World, r: RunId)
    requires HubSound(w) && RedemptionOf(w).Some? && After(w, RedemptionOf(w).value) && r in w.runs && w.runs[r].pc.Finished?
    ensures var rr := RedemptionOf(w).value;
            && w.runs[r].pc.user == rr.user && w.runs[r].pc.token == rr.token
            && rr.token in w.hub.tokens && w.hub.tokens[rr.token].user == rr.user
            && w.disk.entry == Some(w.hub.tokens[rr.token].bearer)
  {
    assert LatePc(w, RedemptionOf(w).value, w.runs[r].pc);
    assert Runs.Backed(w.hub, w.rec.bundle, RedemptionOf(w).value);
  }
}
