/** From which starts `enroll redeem` is crash-safe: exactly those whose hub
    entry holds no credential that the hub may still accept. A run that was told
    "already enrolled" removes the pending file later, whatever has happened in
    between. */
module EnrollStarts {
  import opened Options
  import opened EnrollmentLedger
  import Runs = EnrollmentRuns
  import opened EnrollClient
  import opened EnrollFlow
  import opened EnrollSafety

  /** Once the hub has redeemed, no run of these acts leaves the redeeming key
      and the minted token both gone. */
  ghost predicate AlwaysRecoverable(w0: World) {
    forall acts: seq<Act>, w: World ::
      Reaches(w0, acts, w) && RedemptionOf(w).Some? ==> Recoverable(w, RedemptionOf(w).value)
  }

  /** Every run that finishes reports the identity the bundle minted. */
  ghost predicate AlwaysOneIdentity(w0: World) {
    forall acts: seq<Act>, w: World, r: RunId ::
      Reaches(w0, acts, w) && r in w.runs && w.runs[r].pc.Finished? ==>
        && RedemptionOf(w).Some?
        && w.runs[r].pc.user == RedemptionOf(w).value.user && w.runs[r].pc.token == RedemptionOf(w).value.token
  }

  /** The code can be redeemed now. */
  predicate CodeIsGood(w: World, now: Time) {
    && now < w.rec.expires && w.rec.bundle in w.hub.bundles
    && StateOf(now, w.hub.bundles[w.rec.bundle]) == StIssued && w.hub.bundles[w.rec.bundle].input.purpose == NewUser
  }

  lemma Take(w0: World, acts: seq<Act>, w: World, a: Act) returns (acts': seq<Act>, w': World)
    requires Reaches(w0, acts, w) && Possible(w, a)
    ensures Reaches(w0, acts', w') && w' == Step(w, a)
  {
    Extends(w0, acts, w, a);
    acts', w' := acts + [a], Step(w, a);
  }

  /** A run starts, finds nothing pending and a bearer in the entry. */
  lemma RunStarts(w0: World, acts: seq<Act>, w: World, r: RunId, now: Time) returns (acts': seq<Act>, w': World)
    requires Reaches(w0, acts, w) && r !in w.runs && w.disk.pending.None? && w.disk.entry.Some? && w.since <= now < w.rec.expires
    ensures Reaches(w0, acts', w') && w' == w.(runs := w.runs[r := Run("", NoPending(w.disk.entry.value))])
  {
    acts', w' := Take(w0, acts, w, Begin(r, ""));
    acts', w' := Take(w0, acts', w', LoadHubs(r));
    acts', w' := Take(w0, acts', w', LoadPending(r, now));
  }

  /** The entry's credential, accepted: the first run is about to leave. */
  predicate FirstIsLeaving(w: World, w0: World, t: TokenId) {
    && t in w0.hub.tokens && w.runs == map[0 := Run("", Removing(AlreadyEnrolled, w0.hub.tokens[t].user, t))]
    && w == w0.(hub := w.hub, runs := w.runs)
    && w.hub.bundles == w0.hub.bundles && w.hub.codes == w0.hub.codes && w.hub.hub == w0.hub.hub
    && w.hub.users.Keys == w0.hub.users.Keys && w.hub.tokens == w0.hub.tokens
  }

  lemma FirstRunIsAccepted(w0: World, t: TokenId) returns (acts: seq<Act>, w: World)
    requires Start(w0) && w0.since < w0.rec.expires && t in w0.hub.tokens && w0.stale == Some(w0.hub.tokens[t].bearer)
    requires var k := w0.hub.tokens[t]; !k.revoked && w0.since < k.expires * SECOND && k.userScoped
    ensures Reaches(w0, acts, w) && FirstIsLeaving(w, w0, t)
  {
    assert Reaches(w0, [], w0);
    acts, w := Take(w0, [], w0, HubOp(Runs.SetDisabled(w0.hub.tokens[t].user, false)));
    acts, w := RunStarts(w0, acts, w, 0, w0.since);
    acts, w := Take(w0, acts, w, CheckEntry(0, w0.since, Accepted(t)));
  }

  /** The hub revokes that credential; a second run is refused and redeems. */
  lemma SecondRunRedeems(w0: World, acts: seq<Act>, w1: World, t: TokenId, m: Minted) returns (acts': seq<Act>, w: World)
    requires Start(w0) && CodeIsGood(w0, w0.since) && Reaches(w0, acts, w1) && FirstIsLeaving(w1, w0, t)
    requires w0.stale == Some(w0.hub.tokens[t].bearer) && FreshDraw(w0.hub, w0.stale, m)
    ensures Reaches(w0, acts', w) && 0 in w.runs && w.runs[0] == w1.runs[0] && w.disk.entry == w0.stale
    ensures RedemptionOf(w).Some? && Bearer(RedemptionOf(w).value) == m.bearer
  {
    acts', w := HubRevokes(w0, acts, w1, t);
    acts', w := RunStarts(w0, acts', w, 1, w0.since);
    acts', w := RefusedRunPrepares(w0, acts', w, 1, w0.since);
    acts', w := SecondRunSends(w0, acts', w, m);
  }

  lemma HubRevokes(w0: World, acts: seq<Act>, w1: World, t: TokenId) returns (acts': seq<Act>, w: World)
    requires Reaches(w0, acts, w1) && OneTokenPerBearer(w1.hub) && t in w1.hub.tokens
    ensures Reaches(w0, acts', w) && Truthful(w.hub, w1.since, w1.hub.tokens[t].bearer, Refused)
    ensures w == w1.(hub := w1.hub.(tokens := w1.hub.tokens[t := w1.hub.tokens[t].(revoked := true)]))
  {
    acts', w := Take(w0, acts, w1, HubOp(Runs.RevokeToken(t)));
  }

  /** The hub refuses the stored credential, so the run draws its keys. */
  lemma RefusedRunPrepares(w0: World, acts: seq<Act>, w1: World, r: RunId, now: Time) returns (acts': seq<Act>, w: World)
    requires Reaches(w0, acts, w1) && r in w1.runs && w1.keys == {} && w1.disk.pending.None? && w1.disk.entry.Some?
    requires w1.runs[r] == Run("", NoPending(w1.disk.entry.value))
    requires w1.since <= now && Truthful(w1.hub, now, w1.disk.entry.value, Refused)
    ensures Reaches(w0, acts', w)
    ensures w == w1.(runs := w1.runs[r := Run("", Talking(0))], disk := Disk(Some(Pending(Sending, 0, "", "")), w1.disk.entry), keys := {0})
  {
    acts', w := Take(w0, acts, w1, CheckEntry(r, now, Refused));
    assert w == Goto(w1, r, Creating);
    acts', w := Take(w0, acts', w, CreatePending(r, 0));
    assert w.runs == Goto(w1, r, Created(0)).runs;
    acts', w := Take(w0, acts', w, Recheck(r, now, Refused));
  }

  lemma SecondRunSends(w0: World, acts: seq<Act>, w1: World, m: Minted) returns (acts': seq<Act>, w: World)
    requires Reaches(w0, acts, w1) && 0 in w1.runs && 1 in w1.runs && w1.runs[1] == Run("", Talking(0)) && w1.since == w0.since
    requires w1.rec == w0.rec && CodeIsGood(w0, w0.since) && w1.hub.bundles == w0.hub.bundles && w1.disk.entry == w1.stale == w0.stale
    requires w1.rec.hub == w1.hub.hub && w1.rec.code in w1.hub.codes && w1.hub.codes[w1.rec.code] == w1.rec.bundle
    requires FreshDraw(w1.hub, w1.stale, m)
    ensures Reaches(w0, acts', w) && 0 in w.runs && w.runs[0] == w1.runs[0] && w.disk.entry == w0.stale
    ensures RedemptionOf(w).Some? && Bearer(RedemptionOf(w).value) == m.bearer
  {
    acts', w := Take(w0, acts, w1, Send(1));
    acts', w := Take(w0, acts', w, HubHandles(RequestOf(w1, "", 0), w0.since, m));
  }

  /** The losing run: the first run now removes the second one's pending file,
      and neither the redeeming key nor the minted token is left. */
  lemma LeavingRunLosesKey(w0: World, t: TokenId, m: Minted) returns (acts: seq<Act>, w: World)
    requires Start(w0) && CodeIsGood(w0, w0.since) && t in w0.hub.tokens && w0.stale == Some(w0.hub.tokens[t].bearer)
    requires var k := w0.hub.tokens[t]; !k.revoked && w0.since < k.expires * SECOND && k.userScoped
    requires FreshDraw(w0.hub, w0.stale, m)
    ensures Reaches(w0, acts, w) && RedemptionOf(w).Some? && !Recoverable(w, RedemptionOf(w).value)
  {
    acts, w := FirstRunIsAccepted(w0, t);
    acts, w := SecondRunRedeems(w0, acts, w, t, m);
    acts, w := Take(w0, acts, w, RemovePending(0));
  }

  /** Crash-safe exactly from the starts whose entry is empty or holds a
      credential the hub will not accept again. */
  lemma RecoverableExactly(w0: World, m: Minted)
    requires Start(w0) && CodeIsGood(w0, w0.since) && FreshDraw(w0.hub, w0.stale, m)
    ensures AlwaysRecoverable(w0) <==> NothingToKeep(w0)
  {
    if NothingToKeep(w0) {
      forall acts: seq<Act>, w: World | Reaches(w0, acts, w) && RedemptionOf(w).Some?
        ensures Recoverable(w, RedemptionOf(w).value)
      {
        EnrollmentIsRecoverable(w0, acts, w);
      }
    } else {
      var t := LiveToken(w0);
      var acts, w := LeavingRunLosesKey(w0, t, m);
    }
  }

  lemma LiveToken(w0: World) returns (t: TokenId)
    requires !NothingToKeep(w0)
    ensures t in w0.hub.tokens && w0.stale == Some(w0.hub.tokens[t].bearer)
    ensures var k := w0.hub.tokens[t]; !k.revoked && w0.since < k.expires * SECOND && k.userScoped
  {
    t :| t in w0.hub.tokens && w0.hub.tokens[t].bearer == w0.stale.value
         && !(w0.hub.tokens[t].revoked || w0.hub.tokens[t].expires * SECOND <= w0.since || !w0.hub.tokens[t].userScoped);
  }

  /** And from just those starts every run that finishes reports the identity the
      bundle minted: from another, it may report the credential it found. */
  lemma OneIdentityExactly(w0: World)
    requires Start(w0) && w0.since < w0.rec.expires
    ensures AlwaysOneIdentity(w0) <==> NothingToKeep(w0)
  {
    if NothingToKeep(w0) {
      forall acts: seq<Act>, w: World, r: RunId | Reaches(w0, acts, w) && r in w.runs && w.runs[r].pc.Finished?
        ensures RedemptionOf(w).Some?
        ensures w.runs[r].pc.user == RedemptionOf(w).value.user && w.runs[r].pc.token == RedemptionOf(w).value.token
      {
        OneIdentity(w0, acts, w, r);
      }
    } else {
      var t := LiveToken(w0);
      var acts, w := FirstRunIsAccepted(w0, t);
      acts, w := Take(w0, acts, w, RemovePending(0));
      assert w.runs[0].pc.Finished? && RedemptionOf(w).None?;
    }
  }
}
