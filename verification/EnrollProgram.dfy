/** `enrollRedeem` and `enrollSend` of cmd/aimem/enroll_redeem.go as one run's
    program, on its own files and the hub's store. The ghost world shows that it
    moves by the steps of EnrollClient only, so what every interleaving keeps
    holds of it; and it is proved to end in exactly the world that EnrollFlow
    gives for what it meets. */
module EnrollProgram {
  import opened Options
  import opened EnrollmentLedger
  import opened EnrollmentStore
  import opened EnrollClient
  import opened EnrollFlow
  import opened EnrollSafety
  import opened EnrollRerun

  predicate Apart(m: Minted, n: Minted) { m.user != n.user && m.token != n.token && m.bearer != n.bearer }

  /** From attempt k on, drawn values are fresh, and each is drawn once. */
  ghost predicate AllFresh(s: Ledger, stale: Option<string>, attempts: seq<Attempt>, k: nat) {
    && (forall i :: k <= i < |attempts| ==> FreshDraw(s, stale, attempts[i].m))
    && (forall i, j :: k <= i < j < |attempts| ==> Apart(attempts[i].m, attempts[j].m))
  }

  lemma RedeemKeepsFresh(s: Ledger, stale: Option<string>, now: Time, req: Request, attempts: seq<Attempt>, k: nat)
    requires k < |attempts| && AllFresh(s, stale, attempts, k)
    ensures AllFresh(Redeem(s, now, req, true, attempts[k].m).0, stale, attempts, k + 1)
  {
    var s' := Redeem(s, now, req, true, attempts[k].m).0;
    forall i | k < i < |attempts| ensures FreshDraw(s', stale, attempts[i].m) {
      assert FreshDraw(s, stale, attempts[i].m) && Apart(attempts[k].m, attempts[i].m);
    }
  }

  lemma FinishedHolds(w: World, r: RunId)
    requires RedemptionOf(w).Some? && After(w, RedemptionOf(w).value) && r in w.runs && w.runs[r].pc.Finished?
    ensures var rr := RedemptionOf(w).value; Holds(w, rr) && w.runs[r].pc.user == rr.user && w.runs[r].pc.token == rr.token
  {
    assert LatePc(w, RedemptionOf(w).value, w.runs[r].pc);
  }

  class Command {
    const r: RunId
    const installation: string
    const rec: Record
    const hub: Store
    /** What the run will meet. */
    const e: Env
    var pending: Option<Pending>
    var entry: Option<string>
    /** What the command reports, once it has ended enrolled. */
    var outcome: Option<(Outcome, UserId, TokenId)>
    ghost var w: World
    ghost const w0: World
    ghost var acts: seq<Act>
    /** Where the run ends. */
    ghost const goal: World

    ghost predicate Valid()
      reads this, hub
    {
      && hub.Now() == w.hub && OneTokenPerBearer(w.hub)
      && w.disk == Disk(pending, entry) && w.rec == rec && w.stale == w0.stale && w.since == w0.since <= e.now
      && (forall i :: 0 <= i < |e.attempts| ==> w0.since <= e.attempts[i].now)
      && Reaches(w0, acts, w)
      && r in w.runs && w.runs[r].installation == installation
      && match outcome
         case None => !w.runs[r].pc.Finished?
         case Some(o) => w.runs[r].pc == Finished(o.0, o.1, o.2) && pending.None?
    }

    /** After k attempts, the rest of the run leads to its goal. */
    ghost predicate OnCourse(k: nat, first: bool)
      reads this, hub
    {
      Valid() && Go(w, r, e, k, first) == goal
    }

    /** On course, and the run stands at pc. */
    ghost predicate Stands(pc: Pc, k: nat, first: bool)
      reads this, hub
    {
      OnCourse(k, first) && w.runs[r].pc == pc
    }

    /** The run has ended, where it should. */
    ghost predicate Ended()
      reads this, hub
    {
      Valid() && w == goal && Idle(w.runs[r].pc)
    }

    /** At the start of the run; the goal is where EnrollFlow takes it. */
    ghost predicate Ready()
      reads this, hub
    {
      && Stands(Started, 0, false)
      && r !in w0.runs && w == Step(w0, Begin(r, installation)) && goal == Rerun(w0, r, installation, e)
    }

    constructor (r: RunId, installation: string, hub: Store, w: World, e: Env)
      requires hub.Now() == w.hub && OneTokenPerBearer(w.hub) && r !in w.runs && w.since <= e.now
      requires forall i :: 0 <= i < |e.attempts| ==> w.since <= e.attempts[i].now
      ensures Ready() && this.r == r && this.installation == installation && this.hub == hub && rec == w.rec
      ensures this.e == e && w0 == w && acts == [Begin(r, installation)]
    {
      this.r, this.installation, this.hub, rec, this.e := r, installation, hub, w.rec, e;
      pending, entry, outcome := w.disk.pending, w.disk.entry, None;
      this.w, w0, acts := Step(w, Begin(r, installation)), w, [Begin(r, installation)];
      goal := Rerun(w, r, installation, e);
      new;
      assert Reaches(w, [], w);
      Extends(w, [], w, Begin(r, installation));
      assert [] + acts == acts;
    }

    /** The run's next step, which does not reach the hub. */
    ghost method Take(a: Act, k: nat, first: bool)
      requires OnCourse(k, first) && !Idle(w.runs[r].pc) && !w.runs[r].pc.Talking? && !w.runs[r].pc.Waiting?
      requires a == Next(w, r, e) && Possible(w, a)
      modifies this`w, this`acts
      ensures w == Step(old(w), a) && acts == old(acts) + [a] && Reaches(w0, acts, w)
      ensures Go(w, r, e, k, if old(w.runs[r].pc).Loaded? then old(w).disk.pending.None? else first) == goal
    {
      Extends(w0, acts, w, a);
      GoSteps(w, r, e, k, first);
      w, acts := Step(w, a), acts + [a];
    }

    /** `enrollWhoAmI`. */
    method WhoAmI(bearer: string, now: Time, reachable: bool) returns (reply: Reply)
      requires Valid()
      ensures reply == Ask(w.hub, now, bearer, reachable) && Truthful(w.hub, now, bearer, reply)
    {
      AskIsTruthful(w.hub, now, bearer, reachable);
      if !reachable { return Unavailable; }
      var found := set t | t in hub.tokens && hub.tokens[t].bearer == bearer
                           && !hub.tokens[t].revoked && now < hub.tokens[t].expires * SECOND
                           && hub.tokens[t].user in hub.users && !hub.users[hub.tokens[t].user].disabled;
      if found == {} {
        forall t ensures !Matches(w.hub, now, bearer, t) { assert t !in found; }
        return Refused;
      }
      var t :| t in found;
      AskAccepts(w.hub, now, bearer, t);
      if !hub.tokens[t].userScoped { return Unavailable; }
      return Accepted(t);
    }

    function UserOf(t: TokenId): UserId
      reads hub
    {
      if t in hub.tokens then hub.tokens[t].user else ""
    }

    /** `done`. */
    method Done(how: Outcome, user: UserId, token: TokenId, ghost k: nat, ghost first: bool)
      requires Stands(Removing(how, user, token), k, first)
      modifies this`pending, this`outcome, this`w, this`acts
      ensures Ended() && w.runs[r].pc == Finished(how, user, token)
    {
      Take(RemovePending(r), k, first);
      pending, outcome := None, Some((how, user, token));
    }

    /** Look at the files and take the run to where it may send: with the keys
        of an earlier run, or with new ones, unless a stored credential answers
        for the installation or something has to be refused. */
    method Prepare() returns (talk: Option<Key>, first: bool)
      requires Stands(Started, 0, false) && e.key !in w.keys
      modifies this`pending, this`outcome, this`w, this`acts
      ensures if talk.None? then Ended()
              else Stands(Talking(talk.value), 0, first) && pending.Some? && pending.value.key == talk.value
    {
      talk, first := None, pending.None?;
      Take(LoadHubs(r), 0, false);
      Take(LoadPending(r, e.now), 0, false);
      match pending {
        case None =>
          if e.now >= rec.expires { return; }
          var spend := CheckStored();
          if spend { talk := CreateKeys(); }
        case Some(p) =>
          if p.phase == Delivered && entry.Some? {
            VerifyDelivered(p);
          } else {
            talk := Some(p.key);
          }
      }
    }

    /** Nothing is pending: a stored credential the hub accepts ends the run,
        and only a refused one lets it spend the code. */
    method CheckStored() returns (spend: bool)
      requires OnCourse(0, true) && pending.None?
      requires w.runs[r].pc == if entry.Some? then NoPending(entry.value) else Creating
      modifies this`pending, this`outcome, this`w, this`acts
      ensures if spend then Stands(Creating, 0, true) && pending.None? else Ended()
      ensures spend ==> w.keys == old(w.keys)
    {
      if entry.None? { return true; }
      var reply := WhoAmI(entry.value, e.now, e.checks.first);
      Take(CheckEntry(r, e.now, reply), 0, true);
      match reply {
        case Accepted(t) =>
          Done(AlreadyEnrolled, UserOf(t), t, 0, true);
          return false;
        case Refused => return true;
        case Unavailable => return false;
      }
    }

    /** `newEnrollPending`, then a second look at the hub entry. */
    method CreateKeys() returns (talk: Option<Key>)
      requires Stands(Creating, 0, true) && e.key !in w.keys && pending.None?
      modifies this`pending, this`outcome, this`w, this`acts
      ensures if talk.None? then Ended()
              else Stands(Talking(talk.value), 0, true) && pending.Some? && pending.value.key == talk.value
    {
      Take(CreatePending(r, e.key), 0, true);
      pending := Some(Pending(Sending, e.key, "", ""));
      var accepted := Recheck(e.checks.again, 0, true);
      talk := if accepted then None else Some(e.key);
    }

    /** `storedAccepted`, and what follows from it. */
    method Recheck(reachable: bool, ghost k: nat, ghost first: bool) returns (accepted: bool)
      requires OnCourse(k, first) && (w.runs[r].pc.Created? || w.runs[r].pc.Contested?)
      requires reachable == if w.runs[r].pc.Created? then e.checks.again else e.checks.conflict
      modifies this`pending, this`outcome, this`w, this`acts
      ensures if accepted || old(w.runs[r].pc).Contested? then Ended() else Stands(Talking(old(w.runs[r].pc).key), k, first)
      ensures !accepted ==> pending == old(pending)
    {
      var reply := Unavailable;
      if entry.Some? { reply := WhoAmI(entry.value, e.now, reachable); }
      Take(EnrollClient.Recheck(r, e.now, reply), k, first);
      accepted := reply.Accepted?;
      if accepted { Done(AlreadyEnrolled, UserOf(reply.of), reply.of, k, first); }
    }

    /** The delivery was recorded and the entry holds a bearer. */
    method VerifyDelivered(p: Pending)
      requires entry.Some? && Stands(Verifying(p, entry.value), 0, false)
      modifies this`pending, this`outcome, this`w, this`acts
      ensures Ended()
    {
      var reply := WhoAmI(entry.value, e.now, e.checks.first);
      Take(Verify(r, e.now, reply), 0, false);
      if reply.Accepted? && UserOf(reply.of) == p.user && reply.of == p.token {
        Done(AlreadyEnrolled, p.user, p.token, 0, false);
      }
    }

    /** After k attempts: the run has its answer, or may try again. */
    ghost predicate Told(key: Key, answer: Option<Answer>, k: nat, first: bool)
      reads this, hub
    {
      Stands(if answer.Some? then AfterAnswer(w, key, answer.value) else Talking(key), k, first)
    }

    /** `enrollSend`: at most five attempts with the same key; a first
        redemption stops at the code's expiry. */
    method EnrollSend(key: Key, first: bool) returns (answer: Option<Answer>, ghost k: nat)
      requires Stands(Talking(key), 0, first) && AllFresh(hub.Now(), w0.stale, e.attempts, 0)
      modifies this`w, this`acts, hub
      ensures w.disk == old(w.disk) && k <= MAX_ATTEMPTS
      ensures if answer.Some? then Told(key, answer, k, first) else Ended()
    {
      var tries := 0;
      answer := None;
      while answer.None? && tries < MAX_ATTEMPTS && tries < |e.attempts|
        invariant Told(key, answer, tries, first) && tries <= MAX_ATTEMPTS && tries <= |e.attempts|
        invariant AllFresh(hub.Now(), w0.stale, e.attempts, tries)
      {
        if tries > 0 && first && e.attempts[tries].now >= rec.expires { break; }
        answer := SendOnce(key, e.attempts[tries], tries, first);
        tries := tries + 1;
      }
      k := tries;
      if answer.None? { StopSending(key, tries, first); }
    }

    /** No attempt is left. */
    ghost method StopSending(key: Key, k: nat, first: bool)
      requires Stands(Talking(key), k, first) && GivesUp(w, e, k, first)
      modifies this`w, this`acts
      ensures Ended() && w.disk == old(w.disk)
    {
      Extends(w0, acts, w, GiveUp(r));
      w, acts := Step(w, GiveUp(r)), acts + [GiveUp(r)];
    }

    /** One exchange: the request or its answer may be lost. */
    method SendOnce(key: Key, a: Attempt, ghost k: nat, ghost first: bool) returns (answer: Option<Answer>)
      requires Stands(Talking(key), k, first) && !GivesUp(w, e, k, first) && a == e.attempts[k]
      requires AllFresh(hub.Now(), w0.stale, e.attempts, k)
      modifies this`w, this`acts, hub
      ensures w == Exchange(old(w), r, a) && w.disk == old(w.disk) && AllFresh(hub.Now(), w0.stale, e.attempts, k + 1)
      ensures Told(key, answer, k + 1, first)
    {
      ghost var before, did := w, acts;
      var req := Request(rec.hub, rec.code, installation, key);
      assert FreshDraw(w.hub, w.stale, a.m);
      ExchangeIs(before, r, a);
      RedeemKeepsFresh(w.hub, w.stale, a.now, req, e.attempts, k);
      answer := None;
      if a.arrives {
        var given := hub.RedeemEnrollment(a.now, req, true, a.m);
        if a.answered { answer := Some(given); }
      }
      ghost var done := ExchangeReaches(w0, did, before, r, a);
      w, acts := Exchange(before, r, a), done;
    }

    /** The opened delivery: record the identity, store the bearer, check it. */
    method Keep(key: Key, plain: Plain, ghost k: nat, ghost first: bool)
      requires Stands(Opened(key, plain), k, first)
      modifies this`pending, this`entry, this`outcome, this`w, this`acts
      ensures Ended() && entry == Some(plain.bearer)
      ensures w.runs[r].pc.Stopped? || w.runs[r].pc == Finished(Enrolled, plain.user, plain.token)
      ensures w.runs[r].pc.Stopped? ==> pending == Some(Pending(Delivered, key, plain.user, plain.token))
    {
      StoreDelivered(key, plain, k, first);
      CheckKept(plain, k, first);
    }

    method StoreDelivered(key: Key, plain: Plain, ghost k: nat, ghost first: bool)
      requires Stands(Opened(key, plain), k, first)
      modifies this`pending, this`entry, this`w, this`acts
      ensures Stands(Stored(plain), k, first) && outcome == old(outcome)
      ensures pending == Some(Pending(Delivered, key, plain.user, plain.token)) && entry == Some(plain.bearer)
    {
      RecordDelivered(key, plain, k, first);
      Take(StoreCredential(r), k, first);
      entry := Some(plain.bearer);
    }

    method RecordDelivered(key: Key, plain: Plain, ghost k: nat, ghost first: bool)
      requires Stands(Opened(key, plain), k, first)
      modifies this`pending, this`w, this`acts
      ensures Stands(Recorded(key, plain), k, first) && pending == Some(Pending(Delivered, key, plain.user, plain.token))
    {
      Take(RecordDelivery(r), k, first);
      pending := Some(Pending(Delivered, key, plain.user, plain.token));
    }

    /** The bearer is stored: it must answer for the identity delivered. */
    method CheckKept(plain: Plain, ghost k: nat, ghost first: bool)
      requires Stands(Stored(plain), k, first)
      modifies this`pending, this`outcome, this`w, this`acts
      ensures Ended()
      ensures if w.runs[r].pc.Stopped? then pending == old(pending) else w.runs[r].pc == Finished(Enrolled, plain.user, plain.token)
    {
      var reply := WhoAmI(plain.bearer, e.now, e.checks.last);
      Take(FinalCheck(r, e.now, reply), k, first);
      if reply.Accepted? && UserOf(reply.of) == plain.user && reply.of == plain.token {
        Done(Enrolled, plain.user, plain.token, k, first);
      }
    }

    /** The whole command. Whatever is lost, it ends where EnrollFlow says, and it
        reports an identity exactly when the run has finished there; nothing is
        then pending. From any state earlier runs can leave, it leaves one from
        which the redemption can be recovered, and it reports only the identity
        the bundle minted. Undisturbed, and while the hub would replay, it reports
        that identity exactly when RerunMayEnroll says so. */
    method EnrollRedeem() returns (result: Option<(Outcome, UserId, TokenId)>)
      requires Ready() && e.key !in w.keys && AllFresh(hub.Now(), w0.stale, e.attempts, 0)
      modifies this, hub
      ensures Ended() && (result.Some? <==> goal.runs[r].pc.Finished?)
      ensures result.Some? ==> goal.runs[r].pc == Finished(result.value.0, result.value.1, result.value.2) && pending.None?
      ensures Inv(w0) ==> Inv(w) && (RedemptionOf(w).Some? ==> Recoverable(w, RedemptionOf(w).value))
      ensures Inv(w0) && result.Some? ==>
                && RedemptionOf(w).Some? && Holds(w, RedemptionOf(w).value)
                && result.value.1 == RedemptionOf(w).value.user && result.value.2 == RedemptionOf(w).value.token
      ensures Inv(w0) && FaultFree(e) && Replayable(w0, e.now) ==> (result.Some? <==> RerunMayEnroll(w0, installation, e.now))
    {
      if Inv(w0) && FaultFree(e) && Replayable(w0, e.now) { RerunFrom(w0, r, installation, e); }
      var talk, first := Prepare();
      if talk.Some? {
        var answer, k := EnrollSend(talk.value, first);
        if answer.Some? { HandleAnswer(talk.value, answer.value, k, first); }
      }
      result := outcome;
      if Inv(w0) { Conclude(); }
    }

    /** What follows a received answer. */
    method HandleAnswer(key: Key, answer: Answer, ghost k: nat, ghost first: bool)
      requires Stands(AfterAnswer(w, key, answer), k, first)
      modifies this`pending, this`entry, this`outcome, this`w, this`acts
      ensures Ended()
    {
      match answer {
        case Conflict =>
          var accepted := Recheck(e.checks.conflict, k, first);
        case Success(bundle, _, user, token, delivery, _) =>
          var box := Open(key, Aad(rec.hub, bundle, key, user, token), delivery);
          if box.Some? {
            var p := box.value;
            if p.user == user && p.token == token && p.hub == rec.hub && bundle == rec.bundle {
              Keep(key, p, k, first);
            }
          }
        case Invalid =>
        case Malformed =>
      }
    }

    lemma Conclude()
      requires Valid() && Inv(w0)
      ensures Inv(w) && (RedemptionOf(w).Some? ==> Recoverable(w, RedemptionOf(w).value))
      ensures outcome.Some? ==>
                && RedemptionOf(w).Some? && Holds(w, RedemptionOf(w).value)
                && outcome.value.1 == RedemptionOf(w).value.user && outcome.value.2 == RedemptionOf(w).value.token
    {
      RunKeepsInv(w0, acts, w);
      if outcome.Some? {
        if RedemptionOf(w).None? { NoneFinishedBefore(w, r); } else { FinishedHolds(w, r); }
      }
    }
  }
}
