/** `pushHub` and `flushHubSpool` of internal/adapter/hub.go as one process's
    program: a bounded flush that gives up on a failing hub. What it leaves is
    stated outright, and the ghost world shows that it moves by the steps of
    HubRouting only. */
module HubProgram {
  import opened Options
  import opened Lists
  import opened Subsequence
  import Spool
  import opened HubRouting

  const FLUSH_LIMIT := 100
  const MAX_FAILS := 3

  // ---- what a flush leaves behind ----

  predicate Stopped(attempts: nat, fails: nat) { attempts >= FLUSH_LIMIT || fails >= MAX_FAILS }

  /** The records that wait again, in order, when replies[k] says whether a
      POST of record k would be delivered. */
  function Left(data: seq<Rec>, replies: seq<bool>, attempts: nat, fails: nat): seq<Rec>
    requires |replies| == |data|
    decreases |data|
  {
    if data == [] then []
    else if Stopped(attempts, fails) then [data[0]] + Left(data[1..], replies[1..], attempts, fails)
    else if replies[0] then Left(data[1..], replies[1..], attempts + 1, 0)
    else [data[0]] + Left(data[1..], replies[1..], attempts + 1, fails + 1)
  }

  function Delivered(data: seq<Rec>, replies: seq<bool>, attempts: nat, fails: nat): seq<Rec>
    requires |replies| == |data|
    decreases |data|
  {
    if data == [] || Stopped(attempts, fails) then []
    else if replies[0] then [data[0]] + Delivered(data[1..], replies[1..], attempts + 1, 0)
    else Delivered(data[1..], replies[1..], attempts + 1, fails + 1)
  }

  lemma {:induction false} StoppedLeavesAll(data: seq<Rec>, replies: seq<bool>, attempts: nat, fails: nat)
    requires |replies| == |data| && Stopped(attempts, fails)
    ensures Left(data, replies, attempts, fails) == data
    decreases |data|
  {
    if data != [] { StoppedLeavesAll(data[1..], replies[1..], attempts, fails); }
  }

  /** A flush splits its records: what is left and what is delivered are both
      in spool order, and each record is in exactly one of them. At most the
      limit is delivered. */
  lemma {:induction false} FlushSplits(data: seq<Rec>, replies: seq<bool>, attempts: nat, fails: nat)
    requires |replies| == |data| && attempts <= FLUSH_LIMIT
    ensures var left, sent := Left(data, replies, attempts, fails), Delivered(data, replies, attempts, fails);
            && IsSubsequence(left, data) && IsSubsequence(sent, data)
            && |left| + |sent| == |data| && |sent| <= FLUSH_LIMIT - attempts
    decreases |data|
  {
    if Stopped(attempts, fails) {
      StoppedLeavesAll(data, replies, attempts, fails);
      Reflexive(data);
    } else if data != [] {
      FlushSplits(data[1..], replies[1..], attempts + 1, if replies[0] then 0 else fails + 1);
      var left, sent := Left(data, replies, attempts, fails), Delivered(data, replies, attempts, fails);
      if replies[0] { assert sent[1..] == Delivered(data[1..], replies[1..], attempts + 1, 0); }
      else { assert left[1..] == Left(data[1..], replies[1..], attempts + 1, fails + 1); }
    }
  }

  lemma {:induction false} FlushLosesNone(data: seq<Rec>, replies: seq<bool>, attempts: nat, fails: nat, rec: Rec)
    requires |replies| == |data|
    ensures rec in data <==> rec in Left(data, replies, attempts, fails) || rec in Delivered(data, replies, attempts, fails)
    decreases |data|
  {
    if Stopped(attempts, fails) {
      StoppedLeavesAll(data, replies, attempts, fails);
    } else if data != [] {
      FlushLosesNone(data[1..], replies[1..], attempts + 1, if replies[0] then 0 else fails + 1, rec);
      assert data == [data[0]] + data[1..];
    }
  }

  /** Three failures in a row end the flush: from the first of them on, every
      record waits again in its old order, whatever the hub would answer. */
  lemma {:induction false} ThreeFailuresStop(data: seq<Rec>, replies: seq<bool>, attempts: nat, fails: nat, i: nat)
    requires |replies| == |data| && i + 3 <= |data| && !replies[i] && !replies[i + 1] && !replies[i + 2]
    ensures Left(data, replies, attempts, fails) == Left(data[..i], replies[..i], attempts, fails) + data[i..]
    decreases |data|
  {
    if Stopped(attempts, fails) {
      StoppedLeavesAll(data, replies, attempts, fails);
      StoppedLeavesAll(data[..i], replies[..i], attempts, fails);
    } else if i == 0 {
      FailuresPile(data, replies, attempts, fails, 3);
    } else {
      ThreeFailuresStop(data[1..], replies[1..], attempts + 1, if replies[0] then 0 else fails + 1, i - 1);
      assert data[..i][1..] == data[1..][..i - 1] && replies[..i][1..] == replies[1..][..i - 1];
      assert data[1..][i - 1..] == data[i..];
    }
  }

  /** With n failures still to come that reach the bound, all waits again. */
  lemma {:induction false} FailuresPile(data: seq<Rec>, replies: seq<bool>, attempts: nat, fails: nat, n: nat)
    requires |replies| == |data| && n <= |data| && fails + n >= MAX_FAILS
    requires forall k :: 0 <= k < n ==> !replies[k]
    ensures Left(data, replies, attempts, fails) == data
    decreases |data|
  {
    if Stopped(attempts, fails) {
      StoppedLeavesAll(data, replies, attempts, fails);
    } else {
      FailuresPile(data[1..], replies[1..], attempts + 1, fails + 1, n - 1);
    }
  }

  /** A hub that answers drains the oldest records up to the limit. */
  lemma {:induction false} HealthyHubDrains(data: seq<Rec>, replies: seq<bool>, attempts: nat)
    requires |replies| == |data| && (forall k :: 0 <= k < |data| ==> replies[k]) && attempts <= FLUSH_LIMIT
    ensures var n := if |data| <= FLUSH_LIMIT - attempts then |data| else FLUSH_LIMIT - attempts;
            Left(data, replies, attempts, 0) == data[n..] && Delivered(data, replies, attempts, 0) == data[..n]
    decreases |data|
  {
    if Stopped(attempts, 0) {
      StoppedLeavesAll(data, replies, attempts, 0);
    } else if data != [] {
      HealthyHubDrains(data[1..], replies[1..], attempts + 1);
    }
  }

  // ---- which records a flush tries ----

  /** The three replies before position i were failures. */
  predicate ThreeFailed(replies: seq<bool>, i: nat)
    requires i <= |replies|
  {
    i >= 3 && !replies[i - 1] && !replies[i - 2] && !replies[i - 3]
  }

  /** A flush tries the first n records: up to the end, the hundredth, or the third
      failure in a row, whichever comes first. */
  ghost predicate TriesFirst(replies: seq<bool>, n: nat) {
    && n <= |replies| && n <= 100 && (forall i :: 0 <= i < n ==> !ThreeFailed(replies, i))
    && (n == |replies| || n == 100 || ThreeFailed(replies, n))
  }

  /** The records whose reply was that one, in order. */
  function Replied(data: seq<Rec>, replies: seq<bool>, reply: bool): seq<Rec>
    requires |replies| == |data|
    decreases |data|
  {
    if data == [] then []
    else (if replies[0] == reply then [data[0]] else []) + Replied(data[1..], replies[1..], reply)
  }

  /** How many failures in a row come before position i, after so many before the
      first. */
  function Failing(replies: seq<bool>, fails: nat, i: nat): nat
    requires i <= |replies|
    decreases i
  {
    if i == 0 then fails else if replies[i - 1] then 0 else Failing(replies, fails, i - 1) + 1
  }

  lemma {:induction false} FailingShifts(replies: seq<bool>, fails: nat, i: nat)
    requires i < |replies|
    ensures Failing(replies, fails, i + 1) == Failing(replies[1..], if replies[0] then 0 else fails + 1, i)
    decreases i
  {
    if i > 0 { FailingShifts(replies, fails, i - 1); }
  }

  lemma {:induction false} FailingBound(replies: seq<bool>, i: nat)
    requires i <= |replies|
    ensures Failing(replies, 0, i) <= i
    decreases i
  {
    if i > 0 { FailingBound(replies, i - 1); }
  }

  lemma FailingIsThree(replies: seq<bool>, i: nat)
    requires i <= |replies|
    ensures Failing(replies, 0, i) >= 3 <==> ThreeFailed(replies, i)
  {
    FailingBound(replies, i);
    if i >= 3 {
      assert Failing(replies, 0, i) == if replies[i - 1] then 0 else Failing(replies, 0, i - 1) + 1;
      assert Failing(replies, 0, i - 1) == if replies[i - 2] then 0 else Failing(replies, 0, i - 2) + 1;
      assert Failing(replies, 0, i - 2) == if replies[i - 3] then 0 else Failing(replies, 0, i - 3) + 1;
    }
  }

  /** Trying goes on for n records from counters like these. */
  ghost predicate TriesFrom(replies: seq<bool>, attempts: nat, fails: nat, n: nat) {
    && n <= |replies| && attempts + n <= 100 && (forall i :: 0 <= i < n ==> Failing(replies, fails, i) < 3)
    && (n == |replies| || attempts + n == 100 || Failing(replies, fails, n) >= 3)
  }

  lemma {:induction false} FlushTries(data: seq<Rec>, replies: seq<bool>, attempts: nat, fails: nat) returns (n: nat)
    requires |replies| == |data| && attempts <= 100
    ensures TriesFrom(replies, attempts, fails, n)
    ensures Left(data, replies, attempts, fails) == Replied(data[..n], replies[..n], false) + data[n..]
    ensures Delivered(data, replies, attempts, fails) == Replied(data[..n], replies[..n], true)
    decreases |data|
  {
    if data == [] || attempts == 100 || fails >= 3 {
      n := 0;
      StoppedLeaves(data, replies, attempts, fails);
    } else {
      var ok := replies[0];
      n := FlushTries(data[1..], replies[1..], attempts + 1, if ok then 0 else fails + 1);
      TriesOneMore(replies, attempts, fails, n);
      FlushOneMore(data, replies, attempts, fails, n);
      n := n + 1;
    }
  }

  lemma RepliedOneMore(data: seq<Rec>, replies: seq<bool>, n: nat, reply: bool)
    requires |replies| == |data| && n < |data|
    ensures Replied(data[..n + 1], replies[..n + 1], reply) ==
            (if replies[0] == reply then [data[0]] else []) + Replied(data[1..][..n], replies[1..][..n], reply)
    ensures data[1..][n..] == data[n + 1..]
  {
    assert data[..n + 1][1..] == data[1..][..n] && replies[..n + 1][1..] == replies[1..][..n];
  }

  /** What the flush of the rest leaves and delivers, with the first record. */
  lemma FlushOneMore(data: seq<Rec>, replies: seq<bool>, attempts: nat, fails: nat, n: nat)
    requires |replies| == |data| && data != [] && attempts < 100 && fails < 3 && n <= |data[1..]|
    requires var fails' := if replies[0] then 0 else fails + 1;
             && Left(data[1..], replies[1..], attempts + 1, fails') == Replied(data[1..][..n], replies[1..][..n], false) + data[1..][n..]
             && Delivered(data[1..], replies[1..], attempts + 1, fails') == Replied(data[1..][..n], replies[1..][..n], true)
    ensures Left(data, replies, attempts, fails) == Replied(data[..n + 1], replies[..n + 1], false) + data[n + 1..]
    ensures Delivered(data, replies, attempts, fails) == Replied(data[..n + 1], replies[..n + 1], true)
  {
    TriedAndRest(data, replies, attempts, fails);
    RepliedOneMore(data, replies, n, true);
    RepliedOneMore(data, replies, n, false);
  }

  /** One record tried. */
  lemma TriedAndRest(data: seq<Rec>, replies: seq<bool>, attempts: nat, fails: nat)
    requires |replies| == |data| && data != [] && attempts < 100 && fails < 3
    ensures var fails' := if replies[0] then 0 else fails + 1;
            && Left(data, replies, attempts, fails) ==
               (if replies[0] then [] else [data[0]]) + Left(data[1..], replies[1..], attempts + 1, fails')
            && Delivered(data, replies, attempts, fails) ==
               (if replies[0] then [data[0]] else []) + Delivered(data[1..], replies[1..], attempts + 1, fails')
  {
  }

  lemma StoppedLeaves(data: seq<Rec>, replies: seq<bool>, attempts: nat, fails: nat)
    requires |replies| == |data| && (data == [] || attempts == 100 || fails >= 3)
    ensures Left(data, replies, attempts, fails) == data && Delivered(data, replies, attempts, fails) == []
  {
    if data != [] { StoppedLeavesAll(data, replies, attempts, fails); }
  }

  lemma TriesOneMore(replies: seq<bool>, attempts: nat, fails: nat, n: nat)
    requires replies != [] && attempts < 100 && fails < 3
    requires TriesFrom(replies[1..], attempts + 1, if replies[0] then 0 else fails + 1, n)
    ensures TriesFrom(replies, attempts, fails, n + 1)
  {
    forall i | 0 <= i < n + 1 ensures Failing(replies, fails, i) < 3 {
      if i > 0 { FailingShifts(replies, fails, i - 1); }
    }
    if n < |replies[1..]| { FailingShifts(replies, fails, n); }
  }

  /** What a flush does, without its counters: it tries the first records as
      TriesFirst says, delivers those that are answered, and keeps the rest in
      order, the failed ones first. */
  lemma FlushTriesExactly(data: seq<Rec>, replies: seq<bool>) returns (n: nat)
    requires |replies| == |data|
    ensures TriesFirst(replies, n)
    ensures Left(data, replies, 0, 0) == Replied(data[..n], replies[..n], false) + data[n..]
    ensures Delivered(data, replies, 0, 0) == Replied(data[..n], replies[..n], true)
  {
    n := FlushTries(data, replies, 0, 0);
    forall i | 0 <= i < n ensures !ThreeFailed(replies, i) { FailingIsThree(replies, i); }
    FailingIsThree(replies, n);
  }

  // ---- the program ----

  /** The records of one spool's claims, in the order of the listing. */
  function Collected(claims: map<(Path, Pid), seq<Rec>>, path: Path, listing: seq<Pid>): seq<Rec>
    decreases |listing|
  {
    if listing == [] then []
    else (if (path, listing[0]) in claims then claims[(path, listing[0])] else []) + Collected(claims, path, listing[1..])
  }

  /** The listing names just the claims of one spool. */
  ghost predicate ClaimsListed(claims: map<(Path, Pid), seq<Rec>>, path: Path, listing: seq<Pid>) {
    Once(listing) && forall p :: p in listing <==> (path, p) in claims
  }

  lemma ListedAreClaimants(claims: map<(Path, Pid), seq<Rec>>, path: Path, listing: seq<Pid>)
    requires ClaimsListed(claims, path, listing)
    ensures forall p :: p in Claimants(claims, path) <==> p in listing
  {
    forall p ensures p in Claimants(claims, path) <==> p in listing {
      if (path, p) in claims { assert (path, p).1 in Claimants(claims, path); }
    }
  }

  /** The claim files of a listing. */
  function Names(path: Path, listing: seq<Pid>): set<(Path, Pid)> { set p | p in listing :: (path, p) }

  lemma NamesMore(path: Path, listing: seq<Pid>, k: nat)
    requires k < |listing|
    ensures Names(path, listing[..k + 1]) == Names(path, listing[..k]) + {(path, listing[k])}
  {
    assert listing[..k + 1] == listing[..k] + [listing[k]];
  }

  lemma {:induction false} CollectedSkips(claims: map<(Path, Pid), seq<Rec>>, path: Path, listing: seq<Pid>, p: Pid)
    requires p !in listing
    ensures Collected(claims - {(path, p)}, path, listing) == Collected(claims, path, listing)
    decreases |listing|
  {
    if listing != [] { CollectedSkips(claims, path, listing[1..], p); }
  }

  class Process {
    const pid: Pid
    var config: Config
    var files: map<Path, seq<Rec>>
    var claims: map<(Path, Pid), seq<Rec>>
    ghost var w: World
    ghost const w0: World
    ghost var acts: seq<Act>

    ghost predicate Valid()
      reads this
    {
      config == w.config && files == w.files && claims == w.claims && Reaches(w0, acts, w)
    }

    constructor (pid: Pid, w: World)
      ensures Valid() && this.pid == pid && this.w == w && w0 == w && acts == []
    {
      this.pid, this.w, w0, acts := pid, w, w, [];
      config, files, claims := w.config, w.files, w.claims;
    }

    ghost method Take(a: Act)
      requires Possible(w, a) && Reaches(w0, acts, w)
      modifies this`w, this`acts
      ensures w == Step(old(w), a) && acts == old(acts) + [a] && Reaches(w0, acts, w)
    {
      Extends(w0, acts, w, a);
      w, acts := Step(w, a), acts + [a];
    }

    /** `spoolTo`. */
    method SpoolTo(path: Path, rec: Rec)
      modifies this`files
      ensures files == Append(old(files), path, [rec])
    {
      files := files[path := Waiting(files, path) + [rec]];
    }

    /** One checkpoint: route the record by its project's hub, POST it there or
        spool it, and after a delivery flush what was waiting. */
    method SubmitToHub(rec: Rec, projectHub: Option<Name>, delivered: bool) returns (flush: bool)
      requires Valid()
      modifies this`files, this`w, this`acts
      ensures Valid() && w == Step(old(w), Submit(rec, projectHub, delivered))
      ensures flush <==> delivered && var (name, hub) := Resolve(config, Stamp(projectHub)); hub.Some? && hub.value.token != ""
    {
      var bound := if projectHub.Some? then projectHub.value else QUARANTINE;
      Take(Submit(rec, projectHub, delivered));
      var (name, hub) := Resolve(config, bound);
      if hub.None? {
        if name != "" { SpoolTo(SpoolPath(name), rec); }
        return false;
      }
      if hub.value.token == "" { return false; }
      if !delivered {
        SpoolTo(SpoolPath(name), rec);
        return false;
      }
      return true;
    }

    /** This process's flush of the hub is at that point. */
    ghost predicate Stands(name: Name, at: Spool.Proc)
      reads this
    {
      Valid() && pid in w.procs && w.procs[pid] == Proc(name, at)
    }

    method SweepOne(name: Name, p: Pid, ghost todo: set<Pid>)
      requires Stands(name, Spool.Sweeping(todo)) && p in todo
      modifies this`files, this`claims, this`w, this`acts
      ensures Stands(name, Spool.Sweeping(todo - {p})) && claims == old(claims) - {(SpoolPath(name), p)} && config == old(config)
      ensures files - {SpoolPath(name)} == old(files) - {SpoolPath(name)}
      ensures Waiting(files, SpoolPath(name)) ==
              Waiting(old(files), SpoolPath(name)) + Collected(old(claims), SpoolPath(name), [p])
    {
      var path := SpoolPath(name);
      Take(Sweep(pid, p));
      if (path, p) in claims {
        files := files[path := Waiting(files, path) + claims[(path, p)]];
        claims := claims - {(path, p)};
      }
    }

    method SweepOrphanedClaims(name: Name, listing: seq<Pid>)
      requires Valid() && pid !in w.procs && ClaimsListed(claims, SpoolPath(name), listing)
      requires name in config.hubs && config.hubs[name].token != ""
      modifies this`files, this`claims, this`w, this`acts
      ensures Stands(name, Spool.Sweeping({})) && claims == old(claims) - Names(SpoolPath(name), listing)
      ensures files - {SpoolPath(name)} == old(files) - {SpoolPath(name)}
      ensures Waiting(files, SpoolPath(name)) ==
              Waiting(old(files), SpoolPath(name)) + Collected(old(claims), SpoolPath(name), listing)
    {
      var path := SpoolPath(name);
      ghost var was, goal := claims, Waiting(files, path) + Collected(claims, path, listing);
      ghost var todo := BeginFlush(name, listing);
      for k := 0 to |listing|
        invariant Stands(name, Spool.Sweeping(todo)) && files - {path} == old(files) - {path}
        invariant Swept(was, claims, path, listing, k, todo, Waiting(files, path), goal)
      {
        SweepTurn(was, claims, path, listing, k, todo, Waiting(files, path), goal);
        SweepOne(name, listing[k], todo);
        todo := todo - {listing[k]};
      }
      assert listing[..|listing|] == listing && todo == {};
    }

    ghost method BeginFlush(name: Name, listing: seq<Pid>) returns (todo: set<Pid>)
      requires Valid() && pid !in w.procs && ClaimsListed(claims, SpoolPath(name), listing)
      requires name in config.hubs && config.hubs[name].token != ""
      modifies this`w, this`acts
      ensures Stands(name, Spool.Sweeping(todo))
      ensures var path := SpoolPath(name);
              Swept(claims, claims, path, listing, 0, todo, Waiting(files, path), Waiting(files, path) + Collected(claims, path, listing))
    {
      var path := SpoolPath(name);
      todo := Claimants(claims, path);
      Take(Begin(pid, name));
      ListedAreClaimants(claims, path, listing);
      assert listing[0..] == listing;
    }

    /** `flushHubSpool`: the spool is claimed, at most FLUSH_LIMIT records are
        tried, three failures in a row end it, and the rest waits again. No claim
        of the hub is left. */
    method FlushHubSpool(name: Name, listing: seq<Pid>, replies: seq<bool>)
      requires Valid() && pid !in w.procs && ClaimsListed(claims, SpoolPath(name), listing)
      requires name in config.hubs && config.hubs[name].token != ""
      requires |replies| == |Waiting(files, SpoolPath(name)) + Collected(claims, SpoolPath(name), listing)|
      modifies this`files, this`claims, this`w, this`acts
      ensures Valid() && pid !in w.procs
      ensures var path := SpoolPath(name);
              var data := old(Waiting(files, path) + Collected(claims, path, listing));
              && Waiting(files, path) == Left(data, replies, 0, 0)
              && files - {path} == old(files) - {path}
              && claims == old(claims) - Names(path, listing) && forall p :: (path, p) !in claims
    {
      var path := SpoolPath(name);
      SweepOrphanedClaims(name, listing);
      ghost var swept := claims;
      if path in files {
        FlushWaiting(name, replies);
      } else {
        Take(Claim(pid));
      }
      assert claims == swept - {(path, pid)} == swept;
    }

    /** The spool there is, claimed, flushed, and its claim removed. */
    method FlushWaiting(name: Name, replies: seq<bool>)
      requires Stands(name, Spool.Sweeping({})) && SpoolPath(name) in files && |replies| == |files[SpoolPath(name)]|
      modifies this`files, this`claims, this`w, this`acts
      ensures Valid() && pid !in w.procs
      ensures Waiting(files, SpoolPath(name)) == Left(old(files)[SpoolPath(name)], replies, 0, 0)
      ensures files - {SpoolPath(name)} == old(files) - {SpoolPath(name)} && claims == old(claims) - {(SpoolPath(name), pid)}
    {
      var data := ClaimSpool(name);
      FlushClaim(name, data, replies);
      Take(EndFlush(pid));
      claims := claims - {(SpoolPath(name), pid)};
    }

    /** Rename the spool to this process's claim and read it. */
    method ClaimSpool(name: Name) returns (data: seq<Rec>)
      requires Stands(name, Spool.Sweeping({})) && SpoolPath(name) in files
      modifies this`files, this`claims, this`w, this`acts
      ensures Stands(name, Spool.Draining(data, 0))
      ensures data == old(files)[SpoolPath(name)] && files == old(files) - {SpoolPath(name)}
      ensures claims == old(claims)[(SpoolPath(name), pid) := data]
    {
      var path := SpoolPath(name);
      Take(Claim(pid));
      files, claims := files - {path}, claims[(path, pid) := files[path]];
      Take(Read(pid));
      data := claims[(path, pid)];
    }

    method FlushClaim(name: Name, data: seq<Rec>, replies: seq<bool>)
      requires Stands(name, Spool.Draining(data, 0)) && |replies| == |data|
      requires SpoolPath(name) !in files
      modifies this`files, this`w, this`acts
      ensures Stands(name, Spool.Draining(data, |data|))
      ensures Waiting(files, SpoolPath(name)) == Left(data, replies, 0, 0)
      ensures files - {SpoolPath(name)} == old(files) - {SpoolPath(name)}
    {
      var path := SpoolPath(name);
      var attempts: nat, fails: nat := 0, 0;
      assert data[0..] == data && replies[0..] == replies;
      for k := 0 to |data|
        invariant Stands(name, Spool.Draining(data, k))
        invariant files - {path} == old(files) - {path}
        invariant Waiting(files, path) + Left(data[k..], replies[k..], attempts, fails) == Left(data, replies, 0, 0)
      {
        LeftFirst(data, replies, k, attempts, fails, Waiting(files, path));
        var tried := !(attempts >= FLUSH_LIMIT || fails >= MAX_FAILS);
        FlushRecord(name, data, k, tried, replies[k]);
        if tried {
          attempts := attempts + 1;
          fails := if replies[k] then 0 else fails + 1;
        }
      }
    }

    /** One turn of the loop. */
    method FlushRecord(name: Name, data: seq<Rec>, k: nat, tried: bool, delivered: bool)
      requires Stands(name, Spool.Draining(data, k)) && k < |data|
      modifies this`files, this`w, this`acts
      ensures Stands(name, Spool.Draining(data, k + 1))
      ensures files - {SpoolPath(name)} == old(files) - {SpoolPath(name)}
      ensures Waiting(files, SpoolPath(name)) ==
              Waiting(old(files), SpoolPath(name)) + if tried && delivered then [] else [data[k]]
    {
      Take(FlushOne(pid, tried, delivered));
      if !(tried && delivered) { SpoolTo(SpoolPath(name), data[k]); }
    }
  }

  lemma CollectedOne(claims: map<(Path, Pid), seq<Rec>>, path: Path, p: Pid, rest: seq<Pid>, waiting: seq<Rec>)
    ensures (waiting + Collected(claims, path, [p])) + Collected(claims, path, rest) == waiting + Collected(claims, path, [p] + rest)
  {
    assert ([p] + rest)[1..] == rest && [p][1..] == [];
  }

  /** After k claims: which claims are left, and what the spool, now waiting, is
      still to become. */
  ghost predicate Swept(
    was: map<(Path, Pid), seq<Rec>>, claims: map<(Path, Pid), seq<Rec>>, path: Path, listing: seq<Pid>, k: nat,
    todo: set<Pid>, waiting: seq<Rec>, goal: seq<Rec>)
    requires k <= |listing|
  {
    && Once(listing[k..]) && (forall p :: p in todo <==> p in listing[k..])
    && waiting + Collected(claims, path, listing[k..]) == goal
    && claims == was - Names(path, listing[..k])
  }

  lemma SweepTurn(
    was: map<(Path, Pid), seq<Rec>>, claims: map<(Path, Pid), seq<Rec>>, path: Path, listing: seq<Pid>, k: nat,
    todo: set<Pid>, waiting: seq<Rec>, goal: seq<Rec>)
    requires k < |listing| && Swept(was, claims, path, listing, k, todo, waiting, goal)
    ensures var p := listing[k];
            && p in todo
            && Swept(was, claims - {(path, p)}, path, listing, k + 1, todo - {p}, waiting + Collected(claims, path, [p]), goal)
  {
    var p, rest := listing[k], listing[k + 1..];
    assert listing[k..][0] == p && listing[k..][1..] == rest && listing[k..] == [p] + rest;
    CollectedSkips(claims, path, rest, p);
    CollectedOne(claims, path, p, rest, waiting);
    NamesMore(path, listing, k);
  }

  lemma LeftFirst(data: seq<Rec>, replies: seq<bool>, k: nat, attempts: nat, fails: nat, waiting: seq<Rec>)
    requires |replies| == |data| && k < |data|
    ensures var tried := !Stopped(attempts, fails);
            var attempts', fails' := if tried then attempts + 1 else attempts, if !tried then fails else if replies[k] then 0 else fails + 1;
            waiting + Left(data[k..], replies[k..], attempts, fails) ==
            (waiting + if tried && replies[k] then [] else [data[k]]) + Left(data[k + 1..], replies[k + 1..], attempts', fails')
  {
    assert data[k..][0] == data[k] && data[k..][1..] == data[k + 1..];
    assert replies[k..][0] == replies[k] && replies[k..][1..] == replies[k + 1..];
  }

  /** A record of a project that names an unconfigured hub waits for that hub
      exactly when some hub is configured; with none it is kept by the local
      journal only. */
  lemma UnconfiguredWaitsExactly(w: World, rec: Rec, n: Name)
    requires n != "" && n !in w.config.hubs
    ensures var w' := Step(w, Submit(rec, Some(n), false));
            && w'.posted == w.posted
            && (Waiting(w'.files, SpoolPath(n)) == Waiting(w.files, SpoolPath(n)) + [rec] <==> w.config.hubs != map[])
            && (w.config.hubs == map[] ==> w'.files == w.files)
  {
  }
}
