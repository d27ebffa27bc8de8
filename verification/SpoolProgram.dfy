/** `sweepOrphanedClaims` and `ReplaySpool` of internal/adapter/spool.go as one
    process's program. What it leaves is stated outright, and the ghost world
    shows that it moves by atomic steps of Spool only. */
module SpoolProgram {
  import opened Lists
  import opened Spool

  /** The records of the swept claims, in the order of the directory listing. */
  function Collected(claims: map<Pid, seq<Rec>>, listing: seq<Pid>): seq<Rec>
    requires forall p :: p in listing ==> p in claims
    decreases |listing|
  {
    if listing == [] then [] else claims[listing[0]] + Collected(claims, listing[1..])
  }

  lemma {:induction false} CollectedSkips(claims: map<Pid, seq<Rec>>, listing: seq<Pid>, p: Pid)
    requires (forall q :: q in listing ==> q in claims) && p !in listing
    ensures Collected(claims - {p}, listing) == Collected(claims, listing)
    decreases |listing|
  {
    if listing != [] { CollectedSkips(claims, listing[1..], p); }
  }

  lemma CollectedRest(claims: map<Pid, seq<Rec>>, listing: seq<Pid>, spool: seq<Rec>)
    requires listing != [] && Once(listing) && forall q :: q in listing ==> q in claims
    ensures var p := listing[0];
            (spool + claims[p]) + Collected(claims - {p}, listing[1..]) == spool + Collected(claims, listing)
  {
    CollectedSkips(claims, listing[1..], listing[0]);
  }

  /** The records a reply was given to, in order. */
  function Given(data: seq<Rec>, replies: seq<Reply>, r: Reply): seq<Rec>
    requires |replies| == |data|
    decreases |data|
  {
    if data == [] then []
    else (if replies[0] == r then [data[0]] else []) + Given(data[1..], replies[1..], r)
  }

  function StoreAll(journal: seq<Rec>, recs: seq<Rec>): seq<Rec>
    decreases |recs|
  {
    if recs == [] then journal else StoreAll(Store(journal, recs[0]), recs[1..])
  }

  /** Every record gets exactly one of the three fates. */
  lemma {:induction false} EachRecordHasOneFate(data: seq<Rec>, replies: seq<Reply>, rec: Rec)
    requires |replies| == |data|
    ensures multiset(data)[rec] == multiset(Given(data, replies, Ok))[rec]
              + multiset(Given(data, replies, Rejected))[rec] + multiset(Given(data, replies, Unreachable))[rec]
    decreases |data|
  {
    if data != [] {
      EachRecordHasOneFate(data[1..], replies[1..], rec);
      CountFirst(data, rec);
      GivenCounts(data, replies, Ok, rec);
      GivenCounts(data, replies, Rejected, rec);
      GivenCounts(data, replies, Unreachable, rec);
    }
  }

  lemma CountFirst(data: seq<Rec>, rec: Rec)
    requires data != []
    ensures multiset(data)[rec] == (if data[0] == rec then 1 else 0) + multiset(data[1..])[rec]
  {
    assert data == [data[0]] + data[1..];
  }

  lemma GivenCounts(data: seq<Rec>, replies: seq<Reply>, r: Reply, rec: Rec)
    requires |replies| == |data| && data != []
    ensures multiset(Given(data, replies, r))[rec] ==
            (if replies[0] == r && data[0] == rec then 1 else 0) + multiset(Given(data[1..], replies[1..], r))[rec]
  {
    if replies[0] == r {
      assert Given(data, replies, r)[1..] == Given(data[1..], replies[1..], r);
      CountFirst(Given(data, replies, r), rec);
    }
  }

  class Process {
    const pid: Pid
    var spool: seq<Rec>
    var claims: map<Pid, seq<Rec>>
    var journal: seq<Rec>
    /** The world this process is in, and the steps it has taken. */
    ghost var w: World
    ghost const w0: World
    ghost var acts: seq<Act>

    ghost predicate Valid()
      reads this
    {
      spool == w.spool && claims == w.claims && journal == w.journal && Reaches(w0, acts, w)
    }

    constructor (pid: Pid, w: World)
      ensures Valid() && this.pid == pid && this.w == w && w0 == w && acts == []
    {
      this.pid, this.w, w0, acts := pid, w, w, [];
      spool, claims, journal := w.spool, w.claims, w.journal;
    }

    ghost method Take(a: Act)
      requires Possible(w, a) && Reaches(w0, acts, w)
      modifies this`w, this`acts
      ensures w == Step(old(w), a) && acts == old(acts) + [a] && Reaches(w0, acts, w)
    {
      Extends(w0, acts, w, a);
      w, acts := Step(w, a), acts + [a];
    }

    /** One turn of the sweep. */
    method SweepOne(p: Pid, ghost todo: set<Pid>)
      requires Valid() && pid in w.procs && w.procs[pid] == Sweeping(todo) && p in todo && p in claims
      modifies this`spool, this`claims, this`w, this`acts
      ensures Valid() && pid in w.procs && w.procs[pid] == Sweeping(todo - {p})
      ensures spool == old(spool) + old(claims)[p] && claims == old(claims) - {p}
    {
      Take(Sweep(pid, p));
      spool := spool + claims[p];
      claims := claims - {p};
    }

    /** Return the listed claims to the spool, one claim at a time. */
    method SweepOrphanedClaims(listing: seq<Pid>)
      requires Valid() && pid !in w.procs && (forall p :: p in listing <==> p in claims) && Once(listing)
      modifies this`spool, this`claims, this`w, this`acts
      ensures Valid() && claims == map[] && spool == old(spool) + Collected(old(claims), listing)
      ensures pid in w.procs && w.procs[pid] == Sweeping({})
    {
      Take(Begin(pid));
      ghost var todo := claims.Keys;
      ghost var left, was := listing, claims;
      for k := 0 to |listing|
        invariant Valid() && pid in w.procs && w.procs[pid] == Sweeping(todo) && claims.Keys == todo
        invariant left == listing[k..] && Once(left) && (forall p :: p in left <==> p in todo)
        invariant spool + Collected(claims, left) == old(spool) + Collected(was, listing)
      {
        var p := listing[k];
        assert left[0] == p && p in left;
        CollectedRest(claims, left, spool);
        SweepOne(p, todo);
        todo, left := todo - {p}, left[1..];
      }
      assert todo == {};
    }

    /** Drain the spool: stored records go to the journal in order, unreachable
        ones wait again in order, invalid ones are dropped, no claim is left. */
    method ReplaySpool(listing: seq<Pid>, replies: seq<Reply>) returns (replayed: nat, requeued: nat)
      requires Valid() && pid !in w.procs && (forall p :: p in listing <==> p in claims) && Once(listing)
      requires |replies| == |spool + Collected(claims, listing)|
      modifies this
      ensures Valid() && pid !in w.procs && claims == map[]
      ensures var data := old(spool + Collected(claims, listing));
              && spool == Given(data, replies, Unreachable)
              && journal == StoreAll(old(journal), Given(data, replies, Ok))
              && replayed == |Given(data, replies, Ok)| && requeued == |spool|
    {
      SweepOrphanedClaims(listing);
      replayed, requeued := 0, 0;
      if spool == [] {
        Take(Rename(pid));
        return;
      }
      var data := ClaimSpool();
      replayed, requeued := Drain(data, replies);
      Take(Finish(pid));
      claims := claims - {pid};
    }

    /** Rename the spool to this process's claim and read it. */
    method ClaimSpool() returns (data: seq<Rec>)
      requires Valid() && pid in w.procs && w.procs[pid] == Sweeping({}) && spool != []
      modifies this`spool, this`claims, this`w, this`acts
      ensures Valid() && data == old(spool) && spool == [] && claims == old(claims)[pid := data]
      ensures pid in w.procs && w.procs[pid] == Draining(data, 0)
    {
      Take(Rename(pid));
      claims, spool := claims[pid := spool], [];
      Take(Read(pid));
      data := claims[pid];
    }

    /** One turn of the loop. */
    method PostOne(data: seq<Rec>, k: nat, reply: Reply)
      requires Valid() && pid in w.procs && w.procs[pid] == Draining(data, k) && k < |data|
      modifies this`spool, this`journal, this`w, this`acts
      ensures Valid() && pid in w.procs && w.procs[pid] == Draining(data, k + 1) && w.claims == old(w.claims)
      ensures spool == if reply == Unreachable then old(spool) + [data[k]] else old(spool)
      ensures journal == if reply == Ok then Store(old(journal), data[k]) else old(journal)
    {
      Take(Post(pid, reply));
      match reply {
        case Ok => journal := Store(journal, data[k]);
        case Rejected =>
        case Unreachable => spool := spool + [data[k]];
      }
    }

    method Drain(data: seq<Rec>, replies: seq<Reply>) returns (replayed: nat, requeued: nat)
      requires Valid() && pid in w.procs && w.procs[pid] == Draining(data, 0) && |replies| == |data|
      modifies this`spool, this`journal, this`w, this`acts
      ensures Valid() && pid in w.procs && w.procs[pid] == Draining(data, |data|) && w.claims == old(w.claims)
      ensures spool == old(spool) + Given(data, replies, Unreachable)
      ensures journal == StoreAll(old(journal), Given(data, replies, Ok))
      ensures replayed == |Given(data, replies, Ok)| && requeued == |Given(data, replies, Unreachable)|
    {
      replayed, requeued := 0, 0;
      ghost var spool0, journal0 := spool, journal;
      assert data[0..] == data && replies[0..] == replies;
      for k := 0 to |data|
        invariant Valid() && pid in w.procs && w.procs[pid] == Draining(data, k) && w.claims == old(w.claims)
        invariant Pending(data, replies, k, spool0, spool, requeued)
        invariant Storing(data, replies, k, journal0, journal, replayed)
      {
        NextReply(data, replies, k, spool0, spool, requeued, journal0, journal, replayed);
        PostOne(data, k, replies[k]);
        match replies[k] {
          case Ok => replayed := replayed + 1;
          case Rejected =>
          case Unreachable => requeued := requeued + 1;
        }
      }
    }
  }

  /** After k replies: what the spool is still to become. */
  ghost predicate Pending(data: seq<Rec>, replies: seq<Reply>, k: nat, spool0: seq<Rec>, spool: seq<Rec>, requeued: nat)
    requires |replies| == |data| && k <= |data|
  {
    var un := Given(data[k..], replies[k..], Unreachable);
    && spool + un == spool0 + Given(data, replies, Unreachable)
    && requeued + |un| == |Given(data, replies, Unreachable)|
  }

  ghost predicate Storing(data: seq<Rec>, replies: seq<Reply>, k: nat, journal0: seq<Rec>, journal: seq<Rec>, replayed: nat)
    requires |replies| == |data| && k <= |data|
  {
    var ok := Given(data[k..], replies[k..], Ok);
    && StoreAll(journal, ok) == StoreAll(journal0, Given(data, replies, Ok))
    && replayed + |ok| == |Given(data, replies, Ok)|
  }

  lemma NextReply(
    data: seq<Rec>, replies: seq<Reply>, k: nat,
    spool0: seq<Rec>, spool: seq<Rec>, requeued: nat, journal0: seq<Rec>, journal: seq<Rec>, replayed: nat)
    requires |replies| == |data| && k < |data|
    requires Pending(data, replies, k, spool0, spool, requeued) && Storing(data, replies, k, journal0, journal, replayed)
    ensures var un, ok := replies[k] == Unreachable, replies[k] == Ok;
            && Pending(data, replies, k + 1, spool0, if un then spool + [data[k]] else spool, if un then requeued + 1 else requeued)
            && Storing(data, replies, k + 1, journal0, if ok then Store(journal, data[k]) else journal, if ok then replayed + 1 else replayed)
  {
    GivenFirst(data, replies, k, Ok);
    GivenFirst(data, replies, k, Unreachable);
  }

  lemma GivenFirst(data: seq<Rec>, replies: seq<Reply>, k: nat, r: Reply)
    requires |replies| == |data| && k < |data|
    ensures var was, rest := Given(data[k..], replies[k..], r), Given(data[k + 1..], replies[k + 1..], r);
            if replies[k] == r then was == [data[k]] + rest && was[1..] == rest else was == rest
  {
    assert data[k..][0] == data[k] && data[k..][1..] == data[k + 1..];
    assert replies[k..][0] == replies[k] && replies[k..][1..] == replies[k + 1..];
  }
}
