/** `enroll redeem` when messages are lost: how often a run tries again, until
    when, and that it ends as if nothing had been lost. */
module EnrollRetry {
  import opened Options
  import opened EnrollmentLedger
  import Runs = EnrollmentRuns
  import opened EnrollClient
  import opened EnrollFlow
  import opened EnrollSafety
  import opened EnrollStarts
  import opened EnrollRerun

  predicate Lost(a: Attempt) { !a.arrives || !a.answered }

  /** Every check is answered, fewer than five exchanges are lost, and the one
      after them is answered. */
  predicate AnsweredAt(e: Env, i: nat) {
    && e.checks == Checks(true, true, true, true)
    && i < 5 && i < |e.attempts| && !Lost(e.attempts[i]) && forall j :: 0 <= j < i ==> Lost(e.attempts[j])
  }

  /** Attempts k to i draw fresh values, at clock readings the run can have. */
  ghost predicate Drawable(s: Ledger, stale: Option<string>, since: Time, e: Env, k: nat, i: nat)
    requires i < |e.attempts|
  {
    since <= e.now && forall j :: k <= j <= i ==> since <= e.attempts[j].now && FreshDraw(s, stale, e.attempts[j].m)
  }

  /** The hub has redeemed the code as rr says. */
  ghost predicate Redeemed(w: World, rr: Redemption) {
    && OneTokenPerBearer(w.hub) && w.rec.hub == w.hub.hub && w.rec.code in w.hub.codes
    && w.hub.codes[w.rec.code] == w.rec.bundle && RedemptionOf(w) == Some(rr)
    && rr.input == Input(w.rec.hub, rr.input.installation, rr.key)
  }

  /** rr can still be replayed. */
  predicate InTime(s: Ledger, rr: Redemption, now: Time) { now < rr.at * SECOND + RETENTION && TokenActive(s, now, rr.token) }

  /** What the hub answers to a run's request then. */
  function AnswerTo(w: World, rr: Redemption, name: string, key: Key): Answer {
    if key == rr.key && name == rr.input.installation then Success(w.rec.bundle, true, rr.user, rr.token, rr.delivery, rr.at)
    else Conflict
  }

  lemma RedeemedAnswers(w: World, rr: Redemption, now: Time, name: string, key: Key, m: Minted)
    requires Redeemed(w, rr)
    ensures var (s, a) := Redeem(w.hub, now, RequestOf(w, name, key), true, m);
            && s == w.hub.(audit := s.audit) && (InTime(w.hub, rr, now) ==> a == AnswerTo(w, rr, name, key))
  {
  }

  /** w' is w after some exchanges about a redemption already made. */
  ghost predicate Later(w: World, w': World, r: RunId) {
    && w'.disk == w.disk && w'.rec == w.rec && w'.since == w.since && w'.stale == w.stale
    && w'.hub == w.hub.(audit := w'.hub.audit)
    && r in w.runs && r in w'.runs && w'.runs[r].installation == w.runs[r].installation
  }

  lemma LostOnce(w: World, r: RunId, rr: Redemption, e: Env, k: nat, i: nat, first: bool)
    requires Redeemed(w, rr) && r in w.runs && w.runs[r].pc.Talking? && AnsweredAt(e, i) && k < i
    requires Drawable(w.hub, w.stale, w.since, e, k, i)
    requires first ==> forall j :: k <= j <= i ==> e.attempts[j].now < w.rec.expires
    ensures var w' := Exchange(w, r, e.attempts[k]);
            && Later(w, w', r) && w'.runs[r].pc == w.runs[r].pc && Redeemed(w', rr)
            && Drawable(w'.hub, w'.stale, w'.since, e, k + 1, i)
            && (GoesOn(w, r, e, k, first) <==> GoesOn(w', r, e, k + 1, first))
  {
    var a := e.attempts[k];
    ExchangeIs(w, r, a);
    RedeemedAnswers(w, rr, a.now, w.runs[r].installation, w.runs[r].pc.key, a.m);
  }

  lemma AnsweredNow(w: World, r: RunId, rr: Redemption, e: Env, i: nat, first: bool)
    requires Redeemed(w, rr) && r in w.runs && w.runs[r].pc.Talking? && AnsweredAt(e, i)
    requires Drawable(w.hub, w.stale, w.since, e, i, i) && InTime(w.hub, rr, e.attempts[i].now)
    requires first ==> e.attempts[i].now < w.rec.expires
    ensures var (w', key) := (Exchange(w, r, e.attempts[i]), w.runs[r].pc.key);
            && Later(w, w', r) && w'.runs[r].pc == AfterAnswer(w', key, AnswerTo(w, rr, w.runs[r].installation, key))
            && (GoesOn(w, r, e, i, first) <==> GoesOn(w', r, e, i + 1, first))
  {
    var a := e.attempts[i];
    ExchangeIs(w, r, a);
    RedeemedAnswers(w, rr, a.now, w.runs[r].installation, w.runs[r].pc.key, a.m);
  }

  lemma StillInTime(w: World, w1: World, r: RunId, rr: Redemption, now: Time)
    requires Later(w, w1, r) && InTime(w.hub, rr, now)
    ensures InTime(w1.hub, rr, now)
  {
  }

  lemma LaterStill(w: World, w1: World, w': World, r: RunId)
    requires Later(w, w1, r) && Later(w1, w', r)
    ensures Later(w, w', r)
  {
  }

  /** Lost exchanges only delay the answer. */
  lemma {:induction false} TalksOn(w: World, r: RunId, rr: Redemption, e: Env, k: nat, i: nat, first: bool) returns (w': World)
    requires Redeemed(w, rr) && r in w.runs && w.runs[r].pc.Talking? && AnsweredAt(e, i) && k <= i
    requires Drawable(w.hub, w.stale, w.since, e, k, i) && InTime(w.hub, rr, e.attempts[i].now)
    requires first ==> forall j :: k <= j <= i ==> e.attempts[j].now < w.rec.expires
    ensures var key := w.runs[r].pc.key;
            && Later(w, w', r) && w'.runs[r].pc == AfterAnswer(w', key, AnswerTo(w, rr, w.runs[r].installation, key))
    ensures GoesOn(w, r, e, k, first) <==> GoesOn(w', r, e, i + 1, first)
    decreases i - k
  {
    if k == i {
      w' := Exchange(w, r, e.attempts[i]);
      AnsweredNow(w, r, rr, e, i, first);
    } else {
      var w1 := Exchange(w, r, e.attempts[k]);
      LostOnce(w, r, rr, e, k, i, first);
      StillInTime(w, w1, r, rr, e.attempts[i].now);
      w' := TalksOn(w1, r, rr, e, k + 1, i, first);
      LaterStill(w, w1, w', r);
    }
  }

  // ---- a rerun ----

  /** From the answer to the end. */
  lemma RerunEnds(w: World, w': World, r: RunId, rr: Redemption, e: Env, i: nat)
    requires HubSound(w) && RedemptionOf(w) == Some(rr) && Replayable(w, e.now) && After(w, rr) && w.since <= e.now
    requires AnsweredAt(e, i) && r in w.runs && w.runs[r].pc.Talking? && PendingHolds(w, w.runs[r].pc.key) && Later(w, w', r)
    requires var key := w.runs[r].pc.key; w'.runs[r].pc == AfterAnswer(w', key, AnswerTo(w, rr, w.runs[r].installation, key))
    ensures GoesOn(w', r, e, i + 1, false) <==> Holds(w, rr) || w.runs[r].installation == rr.input.installation
  {
    var key := w.runs[r].pc.key;
    MintedIsAccepted(w, e.now);
    if key == rr.key && w.runs[r].installation == rr.input.installation {
      assert w'.runs[r].pc == Opened(key, rr.delivery.plain);
      StoresAndLeaves(w', r, e, i + 1, false);
    } else if Holds(w, rr) {
      AskedAndLeaves(w', r, e, i + 1, false, rr.user, rr.token);
    } else {
      RefusedConflict(w', r, e, i + 1);
    }
  }

  /** While the hub would replay at the attempt that is answered, a rerun ends as
      an undisturbed one does, whatever the code's expiry: retries recover what
      lost messages delayed. */
  lemma RerunRetriesExactly(w0: World, acts: seq<Act>, w: World, r: RunId, name: string, e: Env, i: nat)
    requires Initial(w0) && Reaches(w0, acts, w) && Replayable(w, e.now) && r !in w.runs && AnsweredAt(e, i)
    requires Replayable(w, e.attempts[i].now) && Drawable(w.hub, w.stale, w.since, e, 0, i)
    ensures EndsEnrolled(w, r, name, e) <==> RerunMayEnroll(w, name, e.now)
  {
    RunKeepsInv(w0, acts, w);
    RunLooks(w, r, name, e);
    var rr, w1 := RedemptionOf(w).value, Looked(w, r, name, e.now);
    MintedIsAccepted(w, e.now);
    if ExpiredAndForgotten(w, e.now) {
      Halted(w1, r, e, 0, true);
    } else if StaleAfterDelivery(w) {
      StaleStops(w1, r, e);
    } else if w1.runs[r].pc.Talking? {
      LookedIsAfter(w, w1, r, rr);
      var w2 := TalksOn(w1, r, rr, e, 0, i, false);
      RerunEnds(w1, w2, r, rr, e, i);
    } else {
      AskedAndLeaves(w1, r, e, 0, w.disk.pending.None?, rr.user, rr.token);
    }
  }

  // ---- a first run ----

  /** The attempts of a first run up to i: the code is good at each, their draws
      are apart, and they fall within the retention of one another. */
  ghost predicate Timely(w: World, e: Env, i: nat)
    requires i < |e.attempts|
  {
    && (forall j :: 0 <= j <= i ==> CodeIsGood(w, e.attempts[j].now) && e.now <= e.attempts[j].now)
    && (forall j, l :: 0 <= j < l <= i ==> e.attempts[l].now < Seconds(e.attempts[j].now) * SECOND + RETENTION)
    && (forall j, l :: 0 <= j < l <= i ==> Apart(e.attempts[j].m, e.attempts[l].m))
  }

  predicate Apart(m: Minted, n: Minted) { m.user != n.user && m.token != n.token && m.bearer != n.bearer }

  /** The code has not been redeemed. */
  ghost predicate Unspent(w: World) {
    && OneTokenPerBearer(w.hub) && w.rec.hub == w.hub.hub && w.rec.code in w.hub.codes && w.hub.codes[w.rec.code] == w.rec.bundle
  }

  /** The redemption that an attempt makes. */
  function Made(w: World, name: string, key: Key, a: Attempt): Redemption {
    Redemption(Seconds(a.now), a.m.user, a.m.token, key, Input(w.rec.hub, name, key),
               Sealed(key, Aad(w.rec.hub, w.rec.bundle, key, a.m.user, a.m.token), Plain(a.m.bearer, a.m.user, a.m.token, w.rec.hub)))
  }

  lemma MintIs(w: World, now: Time, name: string, key: Key, a: Attempt)
    requires Unspent(w) && CodeIsGood(w, a.now) && FreshDraw(w.hub, w.stale, a.m) && now <= a.now
    ensures var (s, given) := Redeem(w.hub, a.now, RequestOf(w, name, key), true, a.m);
            var rr := Made(w, name, key, a);
            && given == Success(w.rec.bundle, false, rr.user, rr.token, rr.delivery, rr.at)
            && Redeemed(w.(hub := s), rr) && s.users == w.hub.users[a.m.user := s.users[a.m.user]]
            && Accepts(s, now, a.m.bearer, a.m.user, a.m.token)
            && s.tokens == w.hub.tokens[a.m.token := Token(a.m.user, a.m.bearer, Seconds(a.now) + TOKEN_LIFE, false, true)]
            && a.m.user in s.users && !s.users[a.m.user].disabled
  {
    RedeemKeepsBearers(w.hub, a.now, RequestOf(w, name, key), true, a.m, 0, None);
  }

  /** The redemption an attempt makes can be replayed at a later one. */
  lemma MadeInTime(w: World, name: string, key: Key, a: Attempt, s: Ledger, now: Time)
    requires a.m.token in s.tokens && s.tokens[a.m.token] == Token(a.m.user, a.m.bearer, Seconds(a.now) + TOKEN_LIFE, false, true)
    requires a.m.user in s.users && !s.users[a.m.user].disabled && now < Seconds(a.now) * SECOND + RETENTION
    ensures InTime(s, Made(w, name, key, a), now)
  {
  }

  /** The request arrived and its answer was lost: the hub has redeemed for this
      run's key, and the run tries again. */
  lemma FirstArrives(w: World, r: RunId, e: Env, k: nat, i: nat)
    requires Unspent(w) && r in w.runs && w.runs[r].pc.Talking? && AnsweredAt(e, i) && k < i && e.attempts[k].arrives
    requires Timely(w, e, i) && Drawable(w.hub, w.stale, w.since, e, k, i)
    ensures var (a, w1) := (e.attempts[k], Exchange(w, r, e.attempts[k]));
            var rr := Made(w, w.runs[r].installation, w.runs[r].pc.key, a);
            && Redeemed(w1, rr) && r in w1.runs && w1.runs[r] == w.runs[r] && w1.rec == w.rec && w1.since == w.since
            && InTime(w1.hub, rr, e.attempts[i].now) && Accepts(w1.hub, e.now, a.m.bearer, a.m.user, a.m.token)
            && Drawable(w1.hub, w1.stale, w1.since, e, k + 1, i)
  {
    var a, name, key := e.attempts[k], w.runs[r].installation, w.runs[r].pc.key;
    var w1 := Exchange(w, r, a);
    ExchangeIs(w, r, a);
    MintIs(w, e.now, name, key, a);
    MadeInTime(w, name, key, a, w1.hub, e.attempts[i].now);
    MintKeepsDrawable(w, w1, e, k, i);
  }

  lemma LostGoesOn(w: World, r: RunId, e: Env, k: nat, i: nat)
    requires r in w.runs && w.runs[r].pc.Talking? && AnsweredAt(e, i) && k < i
    requires e.attempts[k].now < w.rec.expires
    ensures GoesOn(Exchange(w, r, e.attempts[k]), r, e, k + 1, true) ==> GoesOn(w, r, e, k, true)
  {
  }

  lemma ReplayIsStored(w: World, w': World, r: RunId, rr: Redemption, e: Env, i: nat)
    requires Later(w, w', r) && w.since <= e.now && AnsweredAt(e, i)
    requires w'.runs[r].pc == AfterAnswer(w', rr.key, AnswerTo(w, rr, rr.input.installation, rr.key))
    requires rr.delivery == Sealed(rr.key, Aad(w.rec.hub, w.rec.bundle, rr.key, rr.user, rr.token), rr.delivery.plain)
    requires rr.delivery.plain == Plain(Bearer(rr), rr.user, rr.token, w.rec.hub) && Accepts(w.hub, e.now, Bearer(rr), rr.user, rr.token)
    ensures GoesOn(w', r, e, i + 1, true)
  {
    assert w'.runs[r].pc == Opened(rr.key, rr.delivery.plain);
    StoresAndLeaves(w', r, e, i + 1, true);
  }

  /** The rest is a replay. */
  lemma FirstThenReplay(w: World, r: RunId, e: Env, k: nat, i: nat)
    requires Unspent(w) && r in w.runs && w.runs[r].pc.Talking? && AnsweredAt(e, i) && k < i && e.attempts[k].arrives
    requires Timely(w, e, i) && Drawable(w.hub, w.stale, w.since, e, k, i)
    ensures GoesOn(w, r, e, k, true)
  {
    var w1, rr := Exchange(w, r, e.attempts[k]), Made(w, w.runs[r].installation, w.runs[r].pc.key, e.attempts[k]);
    FirstArrives(w, r, e, k, i);
    var w2 := TalksOn(w1, r, rr, e, k + 1, i, true);
    ReplayIsStored(w1, w2, r, rr, e, i);
    LostGoesOn(w, r, e, k, i);
  }

  lemma MintKeepsDrawable(w: World, w1: World, e: Env, k: nat, i: nat)
    requires k < i < |e.attempts| && Drawable(w.hub, w.stale, w.since, e, k, i) && Timely(w, e, i)
    requires w1.stale == w.stale && w1.since == w.since
    requires var m := e.attempts[k].m;
             && m.user in w1.hub.users && w1.hub.users == w.hub.users[m.user := w1.hub.users[m.user]]
             && m.token in w1.hub.tokens && w1.hub.tokens == w.hub.tokens[m.token := w1.hub.tokens[m.token]]
             && w1.hub.tokens[m.token].bearer == m.bearer
    ensures Drawable(w1.hub, w1.stale, w1.since, e, k + 1, i)
  {
    forall j | k + 1 <= j <= i ensures FreshDraw(w1.hub, w1.stale, e.attempts[j].m) {
      assert FreshDraw(w.hub, w.stale, e.attempts[j].m) && Apart(e.attempts[k].m, e.attempts[j].m);
    }
  }

  lemma {:induction false} FirstSends(w: World, r: RunId, e: Env, k: nat, i: nat)
    requires Unspent(w) && r in w.runs && w.runs[r].pc.Talking? && AnsweredAt(e, i) && k <= i
    requires Timely(w, e, i) && Drawable(w.hub, w.stale, w.since, e, k, i)
    ensures GoesOn(w, r, e, k, true)
    decreases i - k, 1
  {
    if k == i {
      FirstAnswered(w, r, e, i);
    } else if e.attempts[k].arrives {
      FirstThenReplay(w, r, e, k, i);
    } else {
      FirstIsDelayed(w, r, e, k, i);
    }
  }

  lemma {:induction false} FirstIsDelayed(w: World, r: RunId, e: Env, k: nat, i: nat)
    requires Unspent(w) && r in w.runs && w.runs[r].pc.Talking? && AnsweredAt(e, i) && k < i && !e.attempts[k].arrives
    requires Timely(w, e, i) && Drawable(w.hub, w.stale, w.since, e, k, i)
    ensures GoesOn(w, r, e, k, true)
    decreases i - k, 0
  {
    FirstIsLost(w, r, e, k, i);
    FirstSends(Exchange(w, r, e.attempts[k]), r, e, k + 1, i);
    LostGoesOn(w, r, e, k, i);
  }

  /** The request was lost: nothing has happened. */
  lemma FirstIsLost(w: World, r: RunId, e: Env, k: nat, i: nat)
    requires Unspent(w) && r in w.runs && w.runs[r].pc.Talking? && AnsweredAt(e, i) && k < i && !e.attempts[k].arrives
    requires Timely(w, e, i) && Drawable(w.hub, w.stale, w.since, e, k, i)
    ensures var w1 := Exchange(w, r, e.attempts[k]);
            && Unspent(w1) && r in w1.runs && w1.runs[r].pc.Talking?
            && Timely(w1, e, i) && Drawable(w1.hub, w1.stale, w1.since, e, k + 1, i)
  {
    ExchangeIs(w, r, e.attempts[k]);
    assert forall j :: 0 <= j <= i ==> CodeIsGood(w, e.attempts[j].now);
  }

  lemma FirstAnswered(w: World, r: RunId, e: Env, i: nat)
    requires Unspent(w) && r in w.runs && w.runs[r].pc.Talking? && AnsweredAt(e, i)
    requires Timely(w, e, i) && Drawable(w.hub, w.stale, w.since, e, i, i)
    ensures GoesOn(w, r, e, i, true)
  {
    FirstIsDelivered(w, r, e.attempts[i]);
    StoresAndLeaves(Exchange(w, r, e.attempts[i]), r, e, i + 1, true);
  }

  /** With new keys, past the second look at the entry. */
  lemma FirstTalks(w: World, r: RunId, e: Env) returns (w': World)
    requires r in w.runs && w.runs[r].pc.Creating? && w.disk.pending.None? && e.key !in w.keys && w.since <= e.now
    requires EntryRefused(w, e.now) && e.checks.again
    ensures w'.hub == w.hub && w'.rec == w.rec && w'.since == w.since && w'.stale == w.stale
    ensures r in w'.runs && w'.runs[r].pc.Talking? && (GoesOn(w, r, e, 0, true) <==> GoesOn(w', r, e, 0, true))
  {
    GoSteps(w, r, e, 0, true);
    var w1 := Step(w, Next(w, r, e));
    if w.disk.entry.Some? { NobodyAnswers(w.hub, e.now, w.disk.entry.value); }
    GoSteps(w1, r, e, 0, true);
    w' := Step(w1, Next(w1, r, e));
  }

  lemma FirstGoesOn(w: World, r: RunId, e: Env, i: nat)
    requires Unspent(w) && r in w.runs && w.runs[r].pc.Creating? && w.disk.pending.None? && e.key !in w.keys
    requires EntryRefused(w, e.now) && AnsweredAt(e, i) && Timely(w, e, i) && Drawable(w.hub, w.stale, w.since, e, 0, i)
    ensures GoesOn(w, r, e, 0, true)
  {
    var w1 := FirstTalks(w, r, e);
    FirstSends(w1, r, e, 0, i);
  }

  /** A first run whose attempts are all while the code is good ends enrolled,
      whichever of its messages are lost, exactly when the entry is empty or the
      hub refuses its credential. */
  lemma FirstRunRetriesExactly(w: World, r: RunId, name: string, e: Env, i: nat)
    requires Initial(w) && CodeIsGood(w, e.now) && r !in w.runs && e.key !in w.keys
    requires AnsweredAt(e, i) && Timely(w, e, i) && Drawable(w.hub, w.stale, w.since, e, 0, i)
    ensures EndsEnrolled(w, r, name, e) <==> EntryRefused(w, e.now)
  {
    var w1 := Looked(w, r, name, e.now);
    RunLooks(w, r, name, e);
    if w.disk.entry.None? {
      FirstGoesOn(w1, r, e, i);
    } else {
      var b := w.disk.entry.value;
      AskIsTruthful(w.hub, e.now, b, true);
      GoSteps(w1, r, e, 0, true);
      var w2 := Step(w1, Next(w1, r, e));
      if EntryRefused(w, e.now) {
        NobodyAnswers(w.hub, e.now, b);
        FirstGoesOn(w2, r, e, i);
      } else {
        Halted(w2, r, e, 0, true);
      }
    }
  }

  // ---- when a run stops trying ----

  /** After its first attempt, a first run sends nothing at or past the expiry:
      the hub, the network and the files stay as they are. */
  lemma NothingSentAfterExpiry(w: World, r: RunId, e: Env, k: nat)
    requires r in w.runs && w.runs[r].pc.Talking? && 0 < k < |e.attempts| && e.attempts[k].now >= w.rec.expires
    ensures Go(w, r, e, k, true) == Goto(w, r, Stopped)
  {
  }

  /** Nor does any run send a sixth time. */
  lemma NothingSentAfterFive(w: World, r: RunId, e: Env, first: bool)
    requires r in w.runs && w.runs[r].pc.Talking?
    ensures Go(w, r, e, 5, first) == Goto(w, r, Stopped)
  {
  }

  function Cut(e: Env, n: nat): Env
    requires n <= |e.attempts|
  {
    e.(attempts := e.attempts[..n])
  }

  /** What makes attempt n one that is never made. */
  predicate NotMade(w: World, e: Env, n: nat, first: bool) {
    n >= 5 || (first && 0 < n < |e.attempts| && e.attempts[n].now >= w.rec.expires)
  }

  lemma {:induction false} CutGoes(w: World, r: RunId, e: Env, k: nat, first: bool, n: nat)
    requires r in w.runs && k <= n <= |e.attempts| && NotMade(w, e, n, first) && !w.runs[r].pc.Started? && !w.runs[r].pc.Loaded?
    ensures Go(w, r, e, k, first) == Go(w, r, Cut(e, n), k, first)
    decreases MAX_ATTEMPTS - k, Rank(w.runs[r].pc), 1
  {
    var pc := w.runs[r].pc;
    if pc.Talking? {
      CutTalks(w, r, e, k, first, n);
    } else if !Idle(pc) && !pc.Waiting? && Possible(w, Next(w, r, e)) {
      CutSteps(w, r, e, k, first, n);
    }
  }

  lemma {:induction false} CutTalks(w: World, r: RunId, e: Env, k: nat, first: bool, n: nat)
    requires r in w.runs && k <= n <= |e.attempts| && NotMade(w, e, n, first) && w.runs[r].pc.Talking?
    ensures Go(w, r, e, k, first) == Go(w, r, Cut(e, n), k, first)
    decreases MAX_ATTEMPTS - k, Rank(w.runs[r].pc), 0
  {
    if k < n && !GivesUp(w, e, k, first) {
      var w' := Exchange(w, r, e.attempts[k]);
      ExchangeKeepsRecord(w, r, e.attempts[k]);
      CutGoes(w', r, e, k + 1, first, n);
      GoSends(w, r, e, k, first, e.attempts[k], w');
      GoSends(w, r, Cut(e, n), k, first, e.attempts[k], w');
    } else {
      GoStops(w, r, e, k, first);
      GoStops(w, r, Cut(e, n), k, first);
    }
  }

  lemma GoSends(w: World, r: RunId, e: Env, k: nat, first: bool, a: Attempt, w': World)
    requires r in w.runs && w.runs[r].pc.Talking? && !GivesUp(w, e, k, first) && a == e.attempts[k] && w' == Exchange(w, r, a)
    ensures r in w'.runs && Go(w, r, e, k, first) == Go(w', r, e, k + 1, first)
  {
  }

  lemma GoStops(w: World, r: RunId, e: Env, k: nat, first: bool)
    requires r in w.runs && w.runs[r].pc.Talking? && GivesUp(w, e, k, first)
    ensures Go(w, r, e, k, first) == Goto(w, r, Stopped)
  {
  }

  lemma {:induction false} CutSteps(w: World, r: RunId, e: Env, k: nat, first: bool, n: nat)
    requires r in w.runs && k <= n <= |e.attempts| && NotMade(w, e, n, first) && !w.runs[r].pc.Started? && !w.runs[r].pc.Loaded?
    requires !Idle(w.runs[r].pc) && !w.runs[r].pc.Talking? && !w.runs[r].pc.Waiting? && Possible(w, Next(w, r, e))
    ensures Go(w, r, e, k, first) == Go(w, r, Cut(e, n), k, first)
    decreases MAX_ATTEMPTS - k, Rank(w.runs[r].pc), 0
  {
    assert Next(w, r, e) == Next(w, r, Cut(e, n));
    NextDescends(w, r, e);
    NextKeepsRecord(w, r, e);
    GoSteps(w, r, e, k, first);
    GoSteps(w, r, Cut(e, n), k, first);
    CutGoes(Step(w, Next(w, r, e)), r, e, k, first, n);
  }

  lemma ExchangeKeepsRecord(w: World, r: RunId, a: Attempt)
    requires r in w.runs && w.runs[r].pc.Talking?
    ensures var w' := Exchange(w, r, a); w'.rec == w.rec && r in w'.runs && !w'.runs[r].pc.Started? && !w'.runs[r].pc.Loaded?
  {
  }

  lemma NextKeepsRecord(w: World, r: RunId, e: Env)
    requires r in w.runs && !Idle(w.runs[r].pc) && !w.runs[r].pc.Talking? && !w.runs[r].pc.Waiting? && Possible(w, Next(w, r, e))
    ensures var w' := Step(w, Next(w, r, e));
            && w'.rec == w.rec && r in w'.runs && !w'.runs[r].pc.Started?
            && (w'.runs[r].pc.Loaded? ==> w.runs[r].pc.Started?)
  {
  }

  /** So a whole first run, with nothing pending at its start, is decided by its
      first attempt and those before the expiry. */
  lemma FirstRunIgnoresLateAttempts(w: World, r: RunId, name: string, e: Env, n: nat)
    requires r !in w.runs && w.since <= e.now && w.disk.pending.None?
    requires 0 < n < |e.attempts| && e.attempts[n].now >= w.rec.expires
    ensures Rerun(w, r, name, e) == Rerun(w, r, name, Cut(e, n))
  {
    RunGoesFromLook(w, r, name, e);
    RunGoesFromLook(w, r, name, Cut(e, n));
    CutGoes(Looked(w, r, name, e.now), r, e, 0, true, n);
  }

  /** And every run by its first five. */
  lemma RunIgnoresSixthAttempt(w: World, r: RunId, name: string, e: Env)
    requires r !in w.runs && w.since <= e.now && |e.attempts| >= 5
    ensures Rerun(w, r, name, e) == Rerun(w, r, name, Cut(e, 5))
  {
    RunGoesFromLook(w, r, name, e);
    RunGoesFromLook(w, r, name, Cut(e, 5));
    CutGoes(Looked(w, r, name, e.now), r, e, 0, w.disk.pending.None?, 5);
  }

  lemma RunGoesFromLook(w: World, r: RunId, name: string, e: Env)
    requires r !in w.runs && w.since <= e.now
    ensures Rerun(w, r, name, e) == Go(Looked(w, r, name, e.now), r, e, 0, w.disk.pending.None?)
  {
    var w1 := Step(w, Begin(r, name));
    var w2 := Step(w1, LoadHubs(r));
    GoSteps(w1, r, e, 0, false);
    GoSteps(w2, r, e, 0, false);
    assert Step(w2, LoadPending(r, e.now)) == Looked(w, r, name, e.now);
  }

  // ---- when a run spends nothing ----

  /** A stored credential that cannot be checked is left alone: no keys are drawn,
      nothing is sent and no file changes. */
  lemma OutageSpendsNothing(w: World, r: RunId, name: string, e: Env)
    requires r !in w.runs && w.since <= e.now && w.disk.pending.None? && w.disk.entry.Some? && !e.checks.first
    ensures Rerun(w, r, name, e) == w.(runs := w.runs[r := Run(name, Stopped)])
  {
    RunGoesFromLook(w, r, name, e);
    var w1 := Looked(w, r, name, e.now);
    if !w1.runs[r].pc.Stopped? {
      AskIsTruthful(w.hub, e.now, w.disk.entry.value, false);
      GoSteps(w1, r, e, 0, true);
    }
  }

  /** And one the hub accepts ends the run: its identity is reported, the code is
      kept. */
  lemma AcceptedSpendsNothing(w: World, r: RunId, name: string, e: Env, u: UserId, t: TokenId)
    requires r !in w.runs && w.since <= e.now < w.rec.expires && w.disk.pending.None? && w.disk.entry.Some? && e.checks.first
    requires Accepts(w.hub, e.now, w.disk.entry.value, u, t)
    ensures Rerun(w, r, name, e) == w.(runs := w.runs[r := Run(name, Finished(AlreadyEnrolled, u, t))])
  {
    RunGoesFromLook(w, r, name, e);
    var w1 := Looked(w, r, name, e.now);
    AskIsTruthful(w.hub, e.now, w.disk.entry.value, true);
    AskAccepts(w.hub, e.now, w.disk.entry.value, t);
    GoSteps(w1, r, e, 0, true);
    var w2 := Step(w1, Next(w1, r, e));
    assert w2 == Goto(w1, r, Removing(AlreadyEnrolled, u, t));
    GoSteps(w2, r, e, 0, true);
    assert w.disk.(pending := None) == w.disk;
  }

  /** A delivery is taken only from an answer in which every name is right. */
  lemma OpensExactly(w: World, key: Key, a: Answer, plain: Plain)
    ensures AfterAnswer(w, key, a) == Opened(key, plain) <==>
              && a.Success? && a.delivery == Sealed(key, Aad(w.rec.hub, a.bundle, key, a.user, a.token), plain)
              && plain.user == a.user && plain.token == a.token && plain.hub == w.rec.hub && a.bundle == w.rec.bundle
  {
  }

  /** A credential that answers for someone other than the delivery said stops the
      run, and the pending file stays for the operator to see. */
  lemma OtherIdentityStops(w: World, r: RunId, now: Time, t: TokenId)
    requires r in w.runs && t in w.hub.tokens
    ensures var a := Verify(r, now, Accepted(t));
            Possible(w, a) && (t != w.runs[r].pc.pending.token || w.hub.tokens[t].user != w.runs[r].pc.pending.user) ==>
              Step(w, a) == Goto(w, r, Stopped)
    ensures var a := FinalCheck(r, now, Accepted(t));
            Possible(w, a) && (t != w.runs[r].pc.plain.token || w.hub.tokens[t].user != w.runs[r].pc.plain.user) ==>
              Step(w, a) == Goto(w, r, Stopped)
  {
  }

  /** The hub accepted the bearer of the run as the credential of this token; a
      delivered identity must be the one it names. */
  predicate Confirmed(w: World, reply: Reply, user: UserId, t: TokenId) {
    reply == Accepted(t) && t in w.hub.tokens && w.hub.tokens[t].user == user
  }

  predicate Confirms(w: World, r: RunId, a: Act)
    requires r in w.runs
  {
    var pc := w.runs[r].pc;
    match a
    case CheckEntry(p, _, reply) => p == r && reply.Accepted?
    case Recheck(p, _, reply) => p == r && w.disk.entry.Some? && reply.Accepted?
    case Verify(p, _, reply) => p == r && pc.Verifying? && Confirmed(w, reply, pc.pending.user, pc.pending.token)
    case FinalCheck(p, _, reply) => p == r && pc.Stored? && Confirmed(w, reply, pc.plain.user, pc.plain.token)
    case _ => false
  }

  /** A run comes to removing its pending file exactly by a check that the hub
      answered with the right identity; it says the code was spent exactly when
      the check was of what it had just received. */
  lemma EndsByConfirmation(w: World, r: RunId, a: Act)
    requires Possible(w, a) && r in w.runs && !w.runs[r].pc.Removing?
    ensures var w' := Step(w, a);
            && (w'.runs[r].pc.Removing? <==> Confirms(w, r, a))
            && (w'.runs[r].pc.Removing? ==> w'.runs[r].pc.outcome == if a.FinalCheck? then Enrolled else AlreadyEnrolled)
            && (w'.disk.pending.None? ==> w.disk.pending.None? || a.RemovePending?)
  {
  }
}
