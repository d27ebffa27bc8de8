/** One run of `enroll redeem` as a function of what it meets: the world it
    starts in, the clock, the keys it would draw, whether the hub can be asked,
    and the fate of each attempt to send. */
module EnrollFlow {
  import opened Options
  import opened EnrollmentLedger
  import Runs = EnrollmentRuns
  import opened EnrollClient
  import opened EnrollSafety

  const MAX_ATTEMPTS := 5

  /** One attempt of a send: the clock, what the hub would draw, whether the
      request arrives and whether its answer does. */
  datatype Attempt = Attempt(now: Time, m: Minted, arrives: bool, answered: bool)

  /** Whether the hub can be asked at each of a run's identity checks. */
  datatype Checks = Checks(first: bool, again: bool, conflict: bool, last: bool)

  datatype Env = Env(now: Time, key: Key, checks: Checks, attempts: seq<Attempt>)

  predicate Matches(s: Ledger, now: Time, bearer: string, t: TokenId) {
    TokenActive(s, now, t) && s.tokens[t].bearer == bearer
  }

  /** `enrollWhoAmI`: the one active token of the bearer, when it is a
      user-scoped one. */
  ghost function Ask(s: Ledger, now: Time, bearer: string, reachable: bool): Reply {
    if !reachable then Unavailable
    else if t :| Matches(s, now, bearer, t) then (if s.tokens[t].userScoped then Accepted(t) else Unavailable)
    else Refused
  }

  lemma AskIsTruthful(s: Ledger, now: Time, bearer: string, reachable: bool)
    ensures Truthful(s, now, bearer, Ask(s, now, bearer, reachable))
  {
    if !exists t :: Matches(s, now, bearer, t) {
      forall t | TokenActive(s, now, t) ensures s.tokens[t].bearer != bearer { assert !Matches(s, now, bearer, t); }
    }
  }

  lemma AskAccepts(s: Ledger, now: Time, bearer: string, t: TokenId)
    requires OneTokenPerBearer(s) && Matches(s, now, bearer, t)
    ensures Ask(s, now, bearer, true) == if s.tokens[t].userScoped then Accepted(t) else Unavailable
  {
    var u :| Matches(s, now, bearer, u) && (Ask(s, now, bearer, true) == if s.tokens[u].userScoped then Accepted(u) else Unavailable);
  }

  predicate Idle(pc: Pc) { pc.Stopped? || pc.Finished? }

  /** How far a run is from its end. */
  function Rank(pc: Pc): nat {
    match pc
    case Started => 11
    case Loaded(_) => 10
    case NoPending(_) => 9
    case Verifying(_, _) => 9
    case Creating => 8
    case Created(_) => 7
    case Talking(_) => 6
    case Waiting(_) => 5
    case Contested(_) => 4
    case Opened(_, _) => 4
    case Recorded(_, _) => 3
    case Stored(_) => 2
    case Removing(_, _, _) => 1
    case Finished(_, _, _) => 0
    case Stopped => 0
  }

  /** What the run does next, when it is neither sending nor at its end. */
  ghost function Next(w: World, r: RunId, e: Env): Act
    requires r in w.runs && !Idle(w.runs[r].pc) && !w.runs[r].pc.Talking? && !w.runs[r].pc.Waiting?
  {
    var entry := w.disk.entry.UnwrapOr("");
    match w.runs[r].pc
    case Started => LoadHubs(r)
    case Loaded(_) => LoadPending(r, e.now)
    case NoPending(b) => CheckEntry(r, e.now, Ask(w.hub, e.now, b, e.checks.first))
    case Verifying(_, b) => Verify(r, e.now, Ask(w.hub, e.now, b, e.checks.first))
    case Creating => CreatePending(r, e.key)
    case Created(_) => Recheck(r, e.now, if w.disk.entry.None? then Unavailable else Ask(w.hub, e.now, entry, e.checks.again))
    case Contested(_) => Recheck(r, e.now, if w.disk.entry.None? then Unavailable else Ask(w.hub, e.now, entry, e.checks.conflict))
    case Opened(_, _) => RecordDelivery(r)
    case Recorded(_, _) => StoreCredential(r)
    case Stored(plain) => FinalCheck(r, e.now, Ask(w.hub, e.now, plain.bearer, e.checks.last))
    case Removing(_, _, _) => RemovePending(r)
  }

  lemma NextDescends(w: World, r: RunId, e: Env)
    requires r in w.runs && !Idle(w.runs[r].pc) && !w.runs[r].pc.Talking? && !w.runs[r].pc.Waiting? && Possible(w, Next(w, r, e))
    ensures var w' := Step(w, Next(w, r, e)); r in w'.runs && Rank(w'.runs[r].pc) < Rank(w.runs[r].pc)
  {
  }

  /** One exchange with the hub, the request or its answer perhaps lost. */
  ghost function Exchange(w: World, r: RunId, a: Attempt): World
    requires r in w.runs && w.runs[r].pc.Talking?
  {
    var req := RequestOf(w, w.runs[r].installation, w.runs[r].pc.key);
    var sent := Step(w, Send(r));
    if a.arrives && Possible(sent, HubHandles(req, a.now, a.m)) then
      var handled := Step(sent, HubHandles(req, a.now, a.m));
      if a.answered then Step(handled, Receive(r, Redeem(w.hub, a.now, req, true, a.m).1)) else Step(handled, Retry(r))
    else Step(sent, Retry(r))
  }

  /** No further attempt: there have been five, or a first redemption is past the
      code's expiry. */
  predicate GivesUp(w: World, e: Env, k: nat, first: bool) {
    k >= MAX_ATTEMPTS || k >= |e.attempts| || (k > 0 && first && e.attempts[k].now >= w.rec.expires)
  }

  /** The run to its end. k attempts have been made; first says that nothing was
      pending when it looked. */
  ghost function Go(w: World, r: RunId, e: Env, k: nat, first: bool): (w': World)
    requires r in w.runs
    ensures r in w'.runs
    decreases MAX_ATTEMPTS - k, Rank(w.runs[r].pc)
  {
    var pc := w.runs[r].pc;
    if Idle(pc) || pc.Waiting? then w
    else if pc.Talking? then
      if GivesUp(w, e, k, first) then Step(w, GiveUp(r)) else Go(Exchange(w, r, e.attempts[k]), r, e, k + 1, first)
    else
      var a := Next(w, r, e);
      if Possible(w, a) then
        NextDescends(w, r, e);
        Go(Step(w, a), r, e, k, if pc.Loaded? then w.disk.pending.None? else first)
      else w
  }

  /** One step of it. */
  lemma GoSteps(w: World, r: RunId, e: Env, k: nat, first: bool)
    requires r in w.runs && !Idle(w.runs[r].pc) && !w.runs[r].pc.Talking? && !w.runs[r].pc.Waiting? && Possible(w, Next(w, r, e))
    ensures var w' := Step(w, Next(w, r, e));
            && r in w'.runs
            && Go(w, r, e, k, first) == Go(w', r, e, k, if w.runs[r].pc.Loaded? then w.disk.pending.None? else first)
  {
  }

  /** Everything works: the hub can be asked, and the first attempt is answered. */
  predicate FaultFree(e: Env) {
    && e.checks == Checks(true, true, true, true)
    && e.attempts != [] && e.attempts[0].arrives && e.attempts[0].answered && e.attempts[0].now == e.now
  }

  ghost predicate FreshDraw(s: Ledger, stale: Option<string>, m: Minted) {
    m.user !in s.users && m.token !in s.tokens && Runs.NewBearer(s, m.bearer) && Some(m.bearer) != stale
  }

  /** What one exchange changes: the hub handles a request that arrives, and the
      run has its answer or may try again. */
  lemma ExchangeIs(w: World, r: RunId, a: Attempt)
    requires r in w.runs && w.runs[r].pc.Talking? && OneTokenPerBearer(w.hub)
    requires w.since <= a.now && FreshDraw(w.hub, w.stale, a.m)
    ensures var key := w.runs[r].pc.key;
            var (s, given) := Redeem(w.hub, a.now, RequestOf(w, w.runs[r].installation, key), true, a.m);
            var w' := Exchange(w, r, a);
            && w'.disk == w.disk && w'.rec == w.rec && w'.since == w.since && w'.stale == w.stale
            && w'.hub == (if a.arrives then s else w.hub) && OneTokenPerBearer(w'.hub)
            && w'.runs == w.runs[r := w.runs[r].(pc := if a.arrives && a.answered then AfterAnswer(w', key, given) else Talking(key))]
  {
    var req := RequestOf(w, w.runs[r].installation, w.runs[r].pc.key);
    assert Possible(Step(w, Send(r)), HubHandles(req, a.now, a.m));
    RedeemKeepsBearers(w.hub, a.now, req, true, a.m, 0, None);
  }

  lemma ExchangeReaches(w0: World, acts: seq<Act>, w: World, r: RunId, a: Attempt) returns (acts': seq<Act>)
    requires Reaches(w0, acts, w) && r in w.runs && w.runs[r].pc.Talking?
    ensures Reaches(w0, acts', Exchange(w, r, a))
  {
    var req := RequestOf(w, w.runs[r].installation, w.runs[r].pc.key);
    var sent, handles := Step(w, Send(r)), HubHandles(req, a.now, a.m);
    Extends(w0, acts, w, Send(r));
    acts' := acts + [Send(r)];
    if a.arrives && Possible(sent, handles) {
      var handled := Step(sent, handles);
      var last := if a.answered then Receive(r, Redeem(w.hub, a.now, req, true, a.m).1) else Retry(r);
      Extends(w0, acts', sent, handles);
      Extends(w0, acts' + [handles], handled, last);
      acts' := acts' + [handles] + [last];
    } else {
      Extends(w0, acts', sent, Retry(r));
      acts' := acts' + [Retry(r)];
    }
  }
}
