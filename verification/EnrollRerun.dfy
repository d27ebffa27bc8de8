/** When an undisturbed run of `enroll redeem` ends enrolled, after whatever
    earlier runs have left: within the delivery retention always, except in
    families of states that the files and the label decide. */
module EnrollRerun {
  import opened Options
  import opened EnrollmentLedger
  import Runs = EnrollmentRuns
  import opened EnrollClient
  import opened EnrollFlow
  import opened EnrollSafety
  import opened EnrollStarts

  // ---- stuck for good ----

  /** Between recording the delivery and storing the credential, an entry that
      still holds a refused credential is taken for the delivered one. */
  predicate StaleAfterDelivery(w: World) {
    && w.disk.pending.Some? && w.disk.pending.value.phase == Delivered
    && w.stale.Some? && w.disk.entry == w.stale
  }

  ghost predicate StuckPc(w: World, pc: Pc) {
    || pc.Started? || pc.Stopped?
    || (pc.Loaded? && pc.entry0 == w.stale)
    || (pc.Verifying? && Some(pc.bearer) == w.stale)
  }

  ghost predicate Stuck(w: World) {
    HubSound(w) && StaleAfterDelivery(w) && forall r :: r in w.runs ==> StuckPc(w, w.runs[r].pc)
  }

  lemma StuckStep(w: World, a: Act)
    requires Stuck(w) && Possible(w, a)
    ensures Stuck(Step(w, a)) && Step(w, a).disk == w.disk
  {
    var w' := Step(w, a);
    if a.HubHandles? {
      HandleKeeps(w, a.req, a.now, a.m);
    } else if a.HubOp? {
      HubOpKeeps(w, a.op);
    } else {
      RunActKeepsHub(w, a);
      StuckRunStep(w, a);
    }
    forall r | r in w'.runs ensures StuckPc(w', w'.runs[r].pc) {
      if HubAct(a) || r != a.r { assert StuckPc(w, w.runs[r].pc); }
    }
  }

  lemma StuckRunStep(w: World, a: Act)
    requires Stuck(w) && Possible(w, a) && !HubAct(a)
    ensures var w' := Step(w, a);
            && w'.disk == w.disk && w'.stale == w.stale
            && a.r in w'.runs && StuckPc(w', w'.runs[a.r].pc)
            && forall r :: r in w'.runs && r != a.r ==> r in w.runs && w'.runs[r] == w.runs[r]
  {
    if !a.Begin? { assert StuckPc(w, w.runs[a.r].pc); }
  }

  /** No later run, whatever the hub answers, ever ends enrolled. */
  lemma {:induction false} StuckForever(w: World, acts: seq<Act>, w': World)
    requires Stuck(w) && Reaches(w, acts, w')
    ensures Stuck(w') && w'.disk == w.disk
    ensures forall r :: r in w'.runs ==> !w'.runs[r].pc.Finished?
    decreases |acts|
  {
    if acts == [] {
      forall r | r in w'.runs ensures !w'.runs[r].pc.Finished? { assert StuckPc(w, w.runs[r].pc); }
    } else {
      StuckStep(w, acts[0]);
      StuckForever(Step(w, acts[0]), acts[1..], w');
    }
  }

  /** The delivery was recorded over a refused credential, and every run has
      ended: stuck. */
  lemma IdleStaleIsStuck(w0: World, acts: seq<Act>, w: World)
    requires Initial(w0) && Reaches(w0, acts, w) && StaleAfterDelivery(w)
    requires forall r :: r in w.runs ==> Idle(w.runs[r].pc)
    ensures Stuck(w) && RedemptionOf(w).Some?
  {
    RunKeepsInv(w0, acts, w);
    forall r | r in w.runs ensures StuckPc(w, w.runs[r].pc) { assert LatePc(w, RedemptionOf(w).value, w.runs[r].pc); }
  }

  /** The stuck states are reachable from every installation that starts with a
      refused credential in its entry: a first run that stops right after it has
      recorded the delivery leaves one. */
  lemma StuckIsReachable(w: World, now: Time, m: Minted) returns (acts: seq<Act>, w': World)
    requires Initial(w) && w.since <= now < w.rec.expires
    requires w.stale.Some? && Truthful(w.hub, now, w.stale.value, Refused)
    requires CodeIsGood(w, now) && FreshDraw(w.hub, w.stale, m)
    ensures Reaches(w, acts, w') && Stuck(w') && RedemptionOf(w').Some?
  {
    acts, w' := FirstRunTalks(w, now);
    acts, w' := Delivers(w, acts, w', now, m);
    acts, w' := RecordsAndStops(w, acts, w');
    IdleStaleIsStuck(w, acts, w');
  }

  lemma FirstRunTalks(w: World, now: Time) returns (acts: seq<Act>, w': World)
    requires Initial(w) && w.since <= now < w.rec.expires
    requires w.stale.Some? && Truthful(w.hub, now, w.stale.value, Refused)
    ensures Reaches(w, acts, w')
    ensures w' == w.(runs := map[0 := Run("", Talking(0))], disk := Disk(Some(Pending(Sending, 0, "", "")), w.stale), keys := {0})
  {
    assert Reaches(w, [], w);
    acts, w' := RunStarts(w, [], w, 0, now);
    acts, w' := RefusedRunPrepares(w, acts, w', 0, now);
  }

  lemma Delivers(w0: World, acts: seq<Act>, w: World, now: Time, m: Minted) returns (acts': seq<Act>, w': World)
    requires Reaches(w0, acts, w) && w.since <= now && w.runs == map[0 := Run("", Talking(0))] && OneTokenPerBearer(w.hub)
    requires w.rec.hub == w.hub.hub && w.rec.code in w.hub.codes && w.hub.codes[w.rec.code] == w.rec.bundle
    requires CodeIsGood(w, now) && FreshDraw(w.hub, w.stale, m)
    ensures Reaches(w0, acts', w') && w'.disk == w.disk && w'.stale == w.stale
    ensures w'.runs.Keys == {0} && w'.runs[0].pc.Opened?
  {
    var a := Attempt(now, m, true, true);
    FirstIsDelivered(w, 0, a);
    acts' := ExchangeReaches(w0, acts, w, 0, a);
    w' := Exchange(w, 0, a);
  }

  /** A first redemption whose answer arrives opens the delivery. */
  lemma FirstIsDelivered(w: World, r: RunId, a: Attempt)
    requires r in w.runs && w.runs[r].pc.Talking? && w.since <= a.now && OneTokenPerBearer(w.hub)
    requires w.rec.hub == w.hub.hub && w.rec.code in w.hub.codes && w.hub.codes[w.rec.code] == w.rec.bundle
    requires CodeIsGood(w, a.now) && FreshDraw(w.hub, w.stale, a.m) && a.arrives && a.answered
    ensures var w' := Exchange(w, r, a);
            var key := w.runs[r].pc.key;
            && w'.disk == w.disk && w'.since == w.since && w'.stale == w.stale
            && w'.runs == w.runs[r := w.runs[r].(pc := Opened(key, Plain(a.m.bearer, a.m.user, a.m.token, w.rec.hub)))]
            && Accepts(w'.hub, a.now, a.m.bearer, a.m.user, a.m.token)
  {
    FirstRedemption(w, a.now, RequestOf(w, w.runs[r].installation, w.runs[r].pc.key), a.m);
    ExchangeIs(w, r, a);
  }

  lemma RecordsAndStops(w0: World, acts: seq<Act>, w: World) returns (acts': seq<Act>, w': World)
    requires Reaches(w0, acts, w) && 0 in w.runs && w.runs[0].pc.Opened?
    ensures Reaches(w0, acts', w') && w'.runs == w.runs[0 := w.runs[0].(pc := Stopped)] && w'.stale == w.stale
    ensures var pc := w.runs[0].pc;
            w'.disk == w.disk.(pending := Some(Pending(Delivered, pc.key, pc.plain.user, pc.plain.token)))
  {
    acts', w' := Take(w0, acts, w, RecordDelivery(0));
    acts', w' := Take(w0, acts', w', GiveUp(0));
  }

  // ---- too late ----

  /** With the pending file gone and the code expired, a run stops before it
      asks anything. */
  predicate ExpiredAndForgotten(w: World, now: Time) { w.disk.pending.None? && now >= w.rec.expires }

  predicate TooLatePc(pc: Pc) { Idle(pc) || pc.Started? || pc.Loaded? }

  /** Every run looks at its files after the code has expired. */
  predicate AllLookAfter(acts: seq<Act>, expires: Time) {
    forall a :: a in acts && a.LoadPending? ==> a.now >= expires
  }

  lemma TooLateRun(w: World, a: Act)
    requires w.disk.pending.None? && Possible(w, a) && !HubAct(a) && (a.LoadPending? ==> a.now >= w.rec.expires)
    requires a.Begin? || TooLatePc(w.runs[a.r].pc)
    ensures var w' := Step(w, a);
            && w'.disk.pending.None? && w'.rec == w.rec && a.r in w'.runs && w'.runs == w.runs[a.r := w'.runs[a.r]]
            && TooLatePc(w'.runs[a.r].pc) && !w'.runs[a.r].pc.Finished?
  {
  }

  lemma TooLateStep(w: World, a: Act)
    requires w.disk.pending.None? && Possible(w, a) && (a.LoadPending? ==> a.now >= w.rec.expires)
    requires forall r :: r in w.runs ==> TooLatePc(w.runs[r].pc)
    ensures var w' := Step(w, a);
            && w'.disk.pending.None? && w'.rec == w.rec
            && (forall r :: r in w'.runs ==> TooLatePc(w'.runs[r].pc))
            && (forall r :: r in w'.runs && w'.runs[r].pc.Finished? ==> r in w.runs && w.runs[r].pc.Finished?)
  {
    if HubAct(a) {
      assert Step(w, a) == w.(hub := Step(w, a).hub, answers := Step(w, a).answers);
    } else {
      TooLateRun(w, a);
    }
  }

  /** No run that looks then ever ends enrolled. */
  lemma {:induction false} NothingFinishesTooLate(w: World, acts: seq<Act>, w': World, r: RunId)
    requires w.disk.pending.None? && forall q :: q in w.runs ==> TooLatePc(w.runs[q].pc)
    requires Reaches(w, acts, w') && AllLookAfter(acts, w.rec.expires) && r in w'.runs && w'.runs[r].pc.Finished?
    ensures r in w.runs && w.runs[r].pc.Finished?
    decreases |acts|
  {
    if acts != [] {
      TooLateStep(w, acts[0]);
      NothingFinishesTooLate(Step(w, acts[0]), acts[1..], w', r);
    }
  }

  // ---- one undisturbed run ----

  /** The command run once more, to its end. */
  ghost function Rerun(w: World, r: RunId, name: string, e: Env): (w': World)
    requires r !in w.runs
    ensures r in w'.runs
  {
    Go(Step(w, Begin(r, name)), r, e, 0, false)
  }

  ghost predicate EndsEnrolled(w: World, r: RunId, name: string, e: Env)
    requires r !in w.runs
  {
    Rerun(w, r, name, e).runs[r].pc.Finished?
  }

  ghost predicate GoesOn(w: World, r: RunId, e: Env, k: nat, first: bool)
    requires r in w.runs
  {
    Go(w, r, e, k, first).runs[r].pc.Finished?
  }

  /** The run as it stands once it has looked at its files. */
  function Looked(w: World, r: RunId, name: string, now: Time): World {
    w.(runs := w.runs[r := Run(name, AfterLoad(w, now, w.disk.entry))])
  }

  lemma RunLooks(w: World, r: RunId, name: string, e: Env)
    requires r !in w.runs && w.since <= e.now
    ensures EndsEnrolled(w, r, name, e) <==> GoesOn(Looked(w, r, name, e.now), r, e, 0, w.disk.pending.None?)
  {
    var w1 := Step(w, Begin(r, name));
    var w2 := Step(w1, LoadHubs(r));
    GoSteps(w1, r, e, 0, false);
    GoSteps(w2, r, e, 0, false);
    assert Step(w2, LoadPending(r, e.now)) == Looked(w, r, name, e.now);
  }

  lemma Leaves(w: World, r: RunId, e: Env, k: nat, first: bool)
    requires r in w.runs && w.runs[r].pc.Removing?
    ensures GoesOn(w, r, e, k, first)
  {
    GoSteps(w, r, e, k, first);
  }

  /** The hub accepts the bearer as token t of user u. */
  ghost predicate Accepts(s: Ledger, now: Time, bearer: string, u: UserId, t: TokenId) {
    && OneTokenPerBearer(s) && Matches(s, now, bearer, t) && s.tokens[t].userScoped && s.tokens[t].user == u
  }

  /** A run that asks about the stored bearer leaves with its identity. */
  lemma AskedAndLeaves(w: World, r: RunId, e: Env, k: nat, first: bool, u: UserId, t: TokenId)
    requires r in w.runs && w.disk.entry.Some? && w.since <= e.now && e.checks == Checks(true, true, true, true)
    requires Accepts(w.hub, e.now, w.disk.entry.value, u, t)
    requires match w.runs[r].pc
             case NoPending(b) => b == w.disk.entry.value
             case Verifying(p, b) => b == w.disk.entry.value && p.user == u && p.token == t
             case Contested(_) => true
             case Stored(plain) => plain.bearer == w.disk.entry.value && plain.user == u && plain.token == t
             case _ => false
    ensures GoesOn(w, r, e, k, first)
  {
    AskIsTruthful(w.hub, e.now, w.disk.entry.value, true);
    AskAccepts(w.hub, e.now, w.disk.entry.value, t);
    GoSteps(w, r, e, k, first);
    Leaves(Step(w, Next(w, r, e)), r, e, k, first);
  }

  /** From an opened delivery to the end. */
  lemma StoresAndLeaves(w: World, r: RunId, e: Env, k: nat, first: bool)
    requires r in w.runs && w.runs[r].pc.Opened? && w.since <= e.now && e.checks == Checks(true, true, true, true)
    requires var p := w.runs[r].pc.plain; Accepts(w.hub, e.now, p.bearer, p.user, p.token)
    ensures GoesOn(w, r, e, k, first)
  {
    var p := w.runs[r].pc.plain;
    var w1 := Step(w, RecordDelivery(r));
    GoSteps(w, r, e, k, first);
    GoSteps(w1, r, e, k, first);
    AskedAndLeaves(Step(w1, StoreCredential(r)), r, e, k, first, p.user, p.token);
  }

  /** The first attempt is answered. */
  lemma AnsweredAtOnce(w: World, r: RunId, e: Env, first: bool)
    requires r in w.runs && w.runs[r].pc.Talking? && OneTokenPerBearer(w.hub)
    requires FaultFree(e) && w.since <= e.now && FreshDraw(w.hub, w.stale, e.attempts[0].m)
    ensures var key := w.runs[r].pc.key;
            var (s, given) := Redeem(w.hub, e.now, RequestOf(w, w.runs[r].installation, key), true, e.attempts[0].m);
            var w' := Exchange(w, r, e.attempts[0]);
            && w'.disk == w.disk && w'.rec == w.rec && w'.since == w.since && w'.stale == w.stale
            && w'.hub == s && OneTokenPerBearer(w'.hub)
            && r in w'.runs && w'.runs[r].pc == AfterAnswer(w', key, given)
            && (GoesOn(w, r, e, 0, first) <==> GoesOn(w', r, e, 1, first))
  {
    ExchangeIs(w, r, e.attempts[0]);
  }

  lemma Halted(w: World, r: RunId, e: Env, k: nat, first: bool)
    requires r in w.runs && w.runs[r].pc.Stopped?
    ensures !GoesOn(w, r, e, k, first)
  {
  }

  // ---- a rerun ----

  /** The hub has redeemed, and would still replay: within the retention, and
      the minted token is active. */
  predicate Replayable(w: World, now: Time) {
    && RedemptionOf(w).Some?
    && now < RedemptionOf(w).value.at * SECOND + RETENTION
    && TokenActive(w.hub, now, RedemptionOf(w).value.token)
  }

  lemma MintedIsAccepted(w: World, now: Time)
    requires HubSound(w) && Replayable(w, now)
    ensures var rr := RedemptionOf(w).value;
            && Accepts(w.hub, now, Bearer(rr), rr.user, rr.token)
            && rr.delivery == Sealed(rr.key, Aad(w.rec.hub, w.rec.bundle, rr.key, rr.user, rr.token), rr.delivery.plain)
            && rr.delivery.plain == Plain(Bearer(rr), rr.user, rr.token, w.rec.hub)
            && rr.input == Input(w.rec.hub, rr.input.installation, rr.key)
  {
    assert Runs.Backed(w.hub, w.rec.bundle, RedemptionOf(w).value);
  }

  /** How the hub answers a rerun: a replay of the delivery to the key and label
      that redeemed, else a conflict, its tables as they were. */
  lemma RerunIsAnswered(w: World, now: Time, name: string, key: Key, m: Minted)
    requires HubSound(w) && Replayable(w, now)
    ensures var rr := RedemptionOf(w).value;
            var (s, a) := Redeem(w.hub, now, RequestOf(w, name, key), true, m);
            && s.tokens == w.hub.tokens && s.users == w.hub.users
            && a == if key == rr.key && name == rr.input.installation
                    then Success(w.rec.bundle, true, rr.user, rr.token, rr.delivery, rr.at) else Conflict
  {
    MintedIsAccepted(w, now);
  }

  /** A rerun that gets to send. */
  lemma SendsAgain(w: World, r: RunId, e: Env)
    requires HubSound(w) && Replayable(w, e.now) && r in w.runs && w.runs[r].pc.Talking?
    requires After(w, RedemptionOf(w).value) && PendingHolds(w, w.runs[r].pc.key)
    requires FaultFree(e) && w.since <= e.now && FreshDraw(w.hub, w.stale, e.attempts[0].m)
    ensures var rr := RedemptionOf(w).value;
            GoesOn(w, r, e, 0, false) <==> Holds(w, rr) || w.runs[r].installation == rr.input.installation
  {
    var rr, key := RedemptionOf(w).value, w.runs[r].pc.key;
    var w' := Exchange(w, r, e.attempts[0]);
    MintedIsAccepted(w, e.now);
    RerunIsAnswered(w, e.now, w.runs[r].installation, key, e.attempts[0].m);
    AnsweredAtOnce(w, r, e, false);
    if key == rr.key && w.runs[r].installation == rr.input.installation {
      assert w'.runs[r].pc == Opened(key, rr.delivery.plain);
      StoresAndLeaves(w', r, e, 1, false);
    } else if Holds(w, rr) {
      AskedAndLeaves(w', r, e, 1, false, rr.user, rr.token);
    } else {
      RefusedConflict(w', r, e, 1);
    }
  }

  /** A conflict, and no accepted credential in the entry: the run stops. */
  lemma RefusedConflict(w: World, r: RunId, e: Env, k: nat)
    requires r in w.runs && w.runs[r].pc.Contested? && w.since <= e.now
    requires w.disk.entry.Some? ==> Dead(w.hub, w.since, w.disk.entry.value)
    ensures !GoesOn(w, r, e, k, false)
  {
    if w.disk.entry.Some? { AskIsTruthful(w.hub, e.now, w.disk.entry.value, e.checks.conflict); }
    GoSteps(w, r, e, k, false);
    Halted(Step(w, Next(w, r, e)), r, e, k, false);
  }

  lemma StaleStops(w: World, r: RunId, e: Env)
    requires r in w.runs && w.runs[r].pc.Verifying? && w.since <= e.now && Dead(w.hub, w.since, w.runs[r].pc.bearer)
    ensures !GoesOn(w, r, e, 0, false)
  {
    AskIsTruthful(w.hub, e.now, w.runs[r].pc.bearer, e.checks.first);
    GoSteps(w, r, e, 0, false);
    Halted(Step(w, Next(w, r, e)), r, e, 0, false);
  }

  /** Crash-safe enrollment, the other half. Whatever earlier runs have done and
      whatever others are doing, an undisturbed run within the retention ends
      enrolled exactly unless a refused credential sits in the entry after the
      delivery was recorded, or the pending file is gone and the code expired, or
      it is given another label before the credential is stored. */
  lemma RerunEnrollsExactly(w0: World, acts: seq<Act>, w: World, r: RunId, name: string, e: Env)
    requires Initial(w0) && Reaches(w0, acts, w) && Replayable(w, e.now) && r !in w.runs
    requires FaultFree(e) && w.since <= e.now && FreshDraw(w.hub, w.stale, e.attempts[0].m)
    ensures EndsEnrolled(w, r, name, e) <==> RerunMayEnroll(w, name, e.now)
  {
    RunKeepsInv(w0, acts, w);
    RerunFrom(w, r, name, e);
  }

  predicate RerunMayEnroll(w: World, name: string, now: Time)
    requires RedemptionOf(w).Some?
  {
    && !StaleAfterDelivery(w) && !ExpiredAndForgotten(w, now)
    && (Holds(w, RedemptionOf(w).value) || name == RedemptionOf(w).value.input.installation)
  }

  lemma RerunFrom(w: World, r: RunId, name: string, e: Env)
    requires Inv(w) && Replayable(w, e.now) && r !in w.runs
    requires FaultFree(e) && w.since <= e.now && FreshDraw(w.hub, w.stale, e.attempts[0].m)
    ensures EndsEnrolled(w, r, name, e) <==> RerunMayEnroll(w, name, e.now)
  {
    RunLooks(w, r, name, e);
    LookedEnrolls(w, r, name, e);
  }

  lemma LookedEnrolls(w: World, r: RunId, name: string, e: Env)
    requires Inv(w) && Replayable(w, e.now) && r !in w.runs
    requires FaultFree(e) && w.since <= e.now && FreshDraw(w.hub, w.stale, e.attempts[0].m)
    ensures GoesOn(Looked(w, r, name, e.now), r, e, 0, w.disk.pending.None?) <==> RerunMayEnroll(w, name, e.now)
  {
    var rr, w1 := RedemptionOf(w).value, Looked(w, r, name, e.now);
    MintedIsAccepted(w, e.now);
    if ExpiredAndForgotten(w, e.now) {
      Halted(w1, r, e, 0, true);
    } else if StaleAfterDelivery(w) {
      StaleStops(w1, r, e);
    } else if w1.runs[r].pc.Talking? {
      LookedIsAfter(w, w1, r, rr);
      SendsAgain(w1, r, e);
    } else {
      AskedAndLeaves(w1, r, e, 0, w.disk.pending.None?, rr.user, rr.token);
    }
  }

  lemma LookedIsAfter(w: World, w1: World, r: RunId, rr: Redemption)
    requires After(w, rr) && r !in w.runs && w1 == w.(runs := w1.runs)
    requires r in w1.runs && w1.runs == w.runs[r := w1.runs[r]] && w1.runs[r].pc.Talking?
    ensures After(w1, rr)
  {
    forall q | q in w1.runs ensures LatePc(w1, rr, w1.runs[q].pc) {
      if q != r { assert LatePc(w, rr, w.runs[q].pc); }
    }
    forall qa | qa in w1.answers ensures AnswerShows(rr, w1, qa.0, qa.1) { assert AnswerShows(rr, w, qa.0, qa.1); }
  }

  // ---- a first run ----

  lemma FirstRedemption(w: World, now: Time, req: Request, m: Minted)
    requires w.rec.hub == w.hub.hub && w.rec.code in w.hub.codes && w.hub.codes[w.rec.code] == w.rec.bundle
    requires CodeIsGood(w, now) && req.hub == w.rec.hub && req.code == w.rec.code
    ensures var (s, a) := Redeem(w.hub, now, req, true, m);
            && a.Success? && a.bundle == w.rec.bundle && a.user == m.user && a.token == m.token
            && a.delivery == Sealed(req.key, Aad(w.rec.hub, w.rec.bundle, req.key, m.user, m.token),
                                    Plain(m.bearer, m.user, m.token, w.rec.hub))
            && w.rec.bundle in s.bundles && s.bundles[w.rec.bundle].redemption.Some?
            && Matches(s, now, m.bearer, m.token) && s.tokens[m.token].user == m.user && s.tokens[m.token].userScoped
  {
  }

  /** The hub refuses whatever credential the entry holds. */
  ghost predicate EntryRefused(w: World, now: Time) {
    w.disk.entry.Some? ==> Truthful(w.hub, now, w.disk.entry.value, Refused)
  }

  /** An undisturbed first run ends enrolled exactly when the entry is empty or
      the hub refuses its credential. */
  lemma FirstRunEnrollsExactly(w: World, r: RunId, name: string, e: Env)
    requires Initial(w) && CodeIsGood(w, e.now) && r !in w.runs && e.key !in w.keys
    requires FaultFree(e) && w.since <= e.now && FreshDraw(w.hub, w.stale, e.attempts[0].m)
    ensures EndsEnrolled(w, r, name, e) <==> EntryRefused(w, e.now)
  {
    var w1 := Looked(w, r, name, e.now);
    RunLooks(w, r, name, e);
    if w.disk.entry.None? {
      FirstEnrolls(w1, r, e);
    } else {
      var b := w.disk.entry.value;
      AskIsTruthful(w.hub, e.now, b, true);
      GoSteps(w1, r, e, 0, true);
      var w2 := Step(w1, Next(w1, r, e));
      if EntryRefused(w, e.now) {
        NobodyAnswers(w.hub, e.now, b);
        FirstEnrolls(w2, r, e);
      } else {
        Halted(w2, r, e, 0, true);
      }
    }
  }

  lemma NobodyAnswers(s: Ledger, now: Time, bearer: string)
    requires Truthful(s, now, bearer, Refused)
    ensures Ask(s, now, bearer, true) == Refused
  {
    forall t ensures !Matches(s, now, bearer, t) { assert TokenActive(s, now, t) ==> s.tokens[t].bearer != bearer; }
  }

  /** Nothing stands in the way of a first redemption. */
  lemma FirstEnrolls(w: World, r: RunId, e: Env)
    requires OneTokenPerBearer(w.hub) && w.rec.hub == w.hub.hub && w.rec.code in w.hub.codes && w.hub.codes[w.rec.code] == w.rec.bundle
    requires r in w.runs && w.runs[r].pc.Creating? && w.disk.pending.None? && e.key !in w.keys
    requires CodeIsGood(w, e.now) && EntryRefused(w, e.now)
    requires FaultFree(e) && w.since <= e.now && FreshDraw(w.hub, w.stale, e.attempts[0].m)
    ensures GoesOn(w, r, e, 0, true)
  {
    GoSteps(w, r, e, 0, true);
    var w1 := Step(w, Next(w, r, e));
    if w.disk.entry.Some? { NobodyAnswers(w.hub, e.now, w.disk.entry.value); }
    GoSteps(w1, r, e, 0, true);
    var w2 := Step(w1, Next(w1, r, e));
    AnsweredAtOnce(w2, r, e, true);
    FirstIsDelivered(w2, r, e.attempts[0]);
    StoresAndLeaves(Exchange(w2, r, e.attempts[0]), r, e, 1, true);
  }
}
