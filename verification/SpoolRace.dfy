/** Why sweeping one claim has to be one step. Here a sweep reads a claim, then
    appends it, then removes it, as the file operations really go; claim names
    are reused by every replay of one process, so the removal can hit a younger
    claim than the one that was read. Nothing is lost as long as no removal
    does, and one that does loses exactly what only that claim held. */
module SpoolRace {
  import opened Spool

  /** mid[p] is a sweep by p between its read and its removal; born is the age
      of the claim it read. */
  datatype Mid = Mid(victim: Pid, born: nat, data: seq<Rec>, appended: bool)
  datatype Fine = Fine(w: World, mid: map<Pid, Mid>)

  /** SweepMissing: the claim is gone when it is to be read. */
  datatype FineAct =
    | Coarse(a: Act)
    | SweepMissing(p: Pid, victim: Pid)
    | SweepRead(p: Pid, victim: Pid)
    | SweepAppend(p: Pid)
    | SweepRemove(p: Pid)

  /** A process between its read and its removal takes no other step, but may
      die. */
  predicate FinePossible(f: Fine, a: FineAct) {
    match a
    case Coarse(b) => Possible(f.w, b) && !b.Sweep? && (b.Die? || forall p :: p in f.mid ==> !Moves(b, p))
    case SweepMissing(p, victim) =>
      p !in f.mid && p in f.w.procs && f.w.procs[p].Sweeping? && victim in f.w.procs[p].todo && victim !in f.w.claims
    case SweepRead(p, victim) =>
      && p !in f.mid && p in f.w.procs && f.w.procs[p].Sweeping? && victim in f.w.procs[p].todo
      && victim in f.w.claims && victim in f.w.born
    case SweepAppend(p) => p in f.mid && !f.mid[p].appended
    case SweepRemove(p) => p in f.mid && f.mid[p].appended && p in f.w.procs && f.w.procs[p].Sweeping?
  }

  function FineStep(f: Fine, a: FineAct): Fine
    requires FinePossible(f, a)
  {
    match a
    case Coarse(b) => Fine(Step(f.w, b), if b.Die? then f.mid - {b.p} else f.mid)
    case SweepMissing(p, victim) => f.(w := f.w.(procs := f.w.procs[p := Sweeping(f.w.procs[p].todo - {victim})]))
    case SweepRead(p, victim) => f.(mid := f.mid[p := Mid(victim, f.w.born[victim], f.w.claims[victim], false)])
    case SweepAppend(p) =>
      Fine(f.w.(spool := f.w.spool + f.mid[p].data), f.mid[p := f.mid[p].(appended := true)])
    case SweepRemove(p) =>
      Fine(f.w.(claims := f.w.claims - {f.mid[p].victim},
                procs := f.w.procs[p := Sweeping(f.w.procs[p].todo - {f.mid[p].victim})]),
           f.mid - {p})
  }

  ghost predicate FineReaches(f: Fine, acts: seq<FineAct>, f': Fine)
    decreases |acts|
  {
    if acts == [] then f == f' else FinePossible(f, acts[0]) && FineReaches(FineStep(f, acts[0]), acts[1..], f')
  }

  lemma {:induction false} FineExtend(f: Fine, acts: seq<FineAct>, f1: Fine, a: FineAct)
    requires FineReaches(f, acts, f1) && FinePossible(f1, a)
    ensures FineReaches(f, acts + [a], FineStep(f1, a))
    decreases |acts|
  {
    var more := acts + [a];
    if acts == [] {
      assert more[1..] == [];
    } else {
      assert more[1..] == acts[1..] + [a];
      FineExtend(FineStep(f, acts[0]), acts[1..], f1, a);
    }
  }

  lemma FineTake(f0: Fine, acts: seq<FineAct>, f: Fine, a: FineAct) returns (acts': seq<FineAct>, f': Fine)
    requires FineReaches(f0, acts, f) && FinePossible(f, a)
    ensures FineReaches(f0, acts', f') && f' == FineStep(f, a)
  {
    FineExtend(f0, acts, f, a);
    acts', f' := acts + [a], FineStep(f, a);
  }

  /** Process 1 has claimed rec, and process 2 has yet to sweep that name. */
  predicate Claimed1(f: Fine, rec: Rec, journal: seq<Rec>) {
    && f.w.spool == [] && f.w.claims == map[1 := [rec]] && 1 in f.w.born && f.w.journal == journal && f.w.refused == {}
    && f.w.procs == map[1 := Claimed, 2 := Sweeping({1})]
  }

  /** Process 1 spools and claims r; process 2 begins, sees the claim and reads
      it. */
  lemma ClaimIsRead(f0: Fine, r: Rec) returns (acts: seq<FineAct>, f: Fine)
    requires Initial(f0.w) && f0.mid == map[]
    ensures FineReaches(f0, acts, f) && Claimed1(f, r, [])
    ensures f.mid.Keys == {2} && f.mid[2] == Mid(1, f.mid[2].born, [r], false)
  {
    assert f0.w.claims.Keys == {};
    acts, f := FineTake(f0, [], f0, Coarse(Submit(r, Unreachable)));
    assert f.w.spool == [r];
    acts, f := FineTake(f0, acts, f, Coarse(Begin(1)));
    acts, f := FineTake(f0, acts, f, Coarse(Rename(1)));
    assert f.w.claims == map[1 := [r]] && f.w.procs == map[1 := Claimed];
    assert f.w.claims.Keys == {1};
    acts, f := FineTake(f0, acts, f, Coarse(Begin(2)));
    acts, f := FineTake(f0, acts, f, SweepRead(2, 1));
  }

  /** Process 1 delivers the record and its replay ends. */
  lemma Delivers(f0: Fine, acts: seq<FineAct>, f: Fine, r: Rec) returns (acts': seq<FineAct>, f': Fine)
    requires FineReaches(f0, acts, f) && Claimed1(f, r, []) && f.mid.Keys == {2}
    ensures FineReaches(f0, acts', f') && f'.mid == f.mid
    ensures f'.w == f.w.(claims := map[], journal := [r], procs := map[2 := Sweeping({1})])
  {
    acts', f' := FineTake(f0, acts, f, Coarse(Read(1)));
    PostThenFinish(f'.w, r);
    acts', f' := FineTake(f0, acts', f', Coarse(Post(1, Ok)));
    acts', f' := FineTake(f0, acts', f', Coarse(Finish(1)));
  }

  lemma PostThenFinish(w: World, r: Rec)
    requires w.claims == map[1 := [r]] && w.procs == map[1 := Draining([r], 0), 2 := Sweeping({1})] && w.journal == []
    ensures Possible(w, Post(1, Ok)) && Possible(Step(w, Post(1, Ok)), Finish(1))
    ensures Step(Step(w, Post(1, Ok)), Finish(1)) == w.(claims := map[], journal := [r], procs := map[2 := Sweeping({1})])
  {
  }

  /** Process 1 spools and claims a second record under the same name. */
  lemma ClaimsAgain(f0: Fine, acts: seq<FineAct>, f: Fine, r: Rec, lost: Rec) returns (acts': seq<FineAct>, f': Fine)
    requires FineReaches(f0, acts, f) && f.mid.Keys == {2} && f.w.procs == map[2 := Sweeping({1})]
    requires f.w.spool == [] && f.w.claims == map[] && f.w.journal == [r] && f.w.refused == {}
    ensures FineReaches(f0, acts', f') && Claimed1(f', lost, [r]) && f'.mid == f.mid && lost in f'.w.spooled
  {
    acts', f' := FineTake(f0, acts, f, Coarse(Submit(lost, Unreachable)));
    assert f'.w.spool == [lost];
    acts', f' := BeginsAndClaims(f0, acts', f', lost);
  }

  lemma BeginsAndClaims(f0: Fine, acts: seq<FineAct>, f: Fine, rec: Rec) returns (acts': seq<FineAct>, f': Fine)
    requires FineReaches(f0, acts, f) && f.mid.Keys == {2} && f.w.procs == map[2 := Sweeping({1})]
    requires f.w.spool == [rec] && f.w.claims == map[] && f.w.refused == {}
    ensures FineReaches(f0, acts', f') && Claimed1(f', rec, f.w.journal) && f'.mid == f.mid && f'.w.spooled == f.w.spooled
  {
    assert f.w.claims.Keys == {};
    acts', f' := FineTake(f0, acts, f, Coarse(Begin(1)));
    acts', f' := FineTake(f0, acts', f', Coarse(Rename(1)));
  }

  /** The second record is then lost: the old sweep removes its claim before it
      is read. */
  lemma SplitSweepLosesRecord(f0: Fine, r: Rec, lost: Rec) returns (acts: seq<FineAct>, f: Fine)
    requires Initial(f0.w) && f0.mid == map[] && r.key != lost.key
    ensures FineReaches(f0, acts, f) && lost in f.w.spooled && !Safe(f.w, lost)
  {
    acts, f := ClaimIsRead(f0, r);
    acts, f := Delivers(f0, acts, f, r);
    acts, f := ClaimsAgain(f0, acts, f, r, lost);
    acts, f := SweepsLate(f0, acts, f, r, lost);
  }

  lemma SweepsLate(f0: Fine, acts: seq<FineAct>, f: Fine, r: Rec, lost: Rec) returns (acts': seq<FineAct>, f': Fine)
    requires FineReaches(f0, acts, f) && Claimed1(f, lost, [r]) && lost in f.w.spooled && r.key != lost.key
    requires f.mid.Keys == {2} && f.mid[2] == Mid(1, f.mid[2].born, [r], false)
    ensures FineReaches(f0, acts', f') && lost in f'.w.spooled && !Safe(f'.w, lost)
  {
    acts', f' := FineTake(f0, acts, f, SweepAppend(2));
    acts', f' := FineTake(f0, acts', f', SweepRemove(2));
    assert f'.w.claims == map[] && f'.w.spool == [r] && f'.w.journal == [r];
  }

  // ---- conservation without a late removal ----

  /** The removal would hit a younger claim than the one that was read. */
  predicate Late(f: Fine, p: Pid) {
    && p in f.mid && f.mid[p].victim in f.w.claims
    && f.mid[p].victim in f.w.born && f.w.born[f.mid[p].victim] != f.mid[p].born
  }

  ghost predicate MidSound(w: World, p: Pid, m: Mid) {
    && p in w.procs && w.procs[p].Sweeping? && m.born < w.clock
    && (m.victim in w.claims && m.victim in w.born && w.born[m.victim] == m.born ==> w.claims[m.victim] == m.data)
    && (m.appended ==> forall rec :: rec in m.data ==> SafeBeyond(w, m.born, rec))
  }

  ghost predicate FineInv(f: Fine) { Inv(f.w) && forall p :: p in f.mid ==> MidSound(f.w, p, f.mid[p]) }

  lemma CoarseKeepsMid(f: Fine, b: Act, p: Pid)
    requires FineInv(f) && FinePossible(f, Coarse(b)) && p in f.mid && (b.Die? ==> b.p != p)
    ensures MidSound(Step(f.w, b), p, f.mid[p])
  {
    var w, w', m := f.w, Step(f.w, b), f.mid[p];
    assert MidSound(w, p, m);
    if m.appended {
      forall rec | rec in m.data ensures SafeBeyond(w', m.born, rec) { StepKeepsBeyond(w, b, m.born, rec); }
    }
  }

  lemma StepKeepsBeyond(w: World, b: Act, age: nat, rec: Rec)
    requires Inv(w) && Possible(w, b) && age < w.clock && SafeBeyond(w, age, rec)
    ensures SafeBeyond(Step(w, b), age, rec)
  {
    var w' := Step(w, b);
    if !b.Finish? {
      EveryStepButFinishCarries(w, b);
      CarriedIsSafe(w, w', age, rec);
    } else if b.p in w.claims {
      DrainedIsSpent(w, b.p);
      SpentCanGo(w, w', b.p, age, rec);
    } else {
      assert w'.claims == w.claims;
      SamePlaces(w, w', age, rec);
    }
  }

  lemma CoarseKeeps(f: Fine, b: Act)
    requires FineInv(f) && FinePossible(f, Coarse(b))
    ensures FineInv(FineStep(f, Coarse(b)))
  {
    if b.Finish? { FinishKeepsInv(f.w, b.p); } else { StepKeepsInv(f.w, b); }
    var f' := FineStep(f, Coarse(b));
    forall p | p in f'.mid ensures MidSound(f'.w, p, f'.mid[p]) { CoarseKeepsMid(f, b, p); }
  }

  /** Appending what was read puts those records beyond every claim. */
  lemma AppendKeeps(f: Fine, p: Pid)
    requires FineInv(f) && FinePossible(f, SweepAppend(p))
    ensures FineInv(FineStep(f, SweepAppend(p)))
  {
    var f' := FineStep(f, SweepAppend(p));
    var w, w' := f.w, f'.w;
    assert Carries(w, w');
    forall q | q in w'.procs ensures ProcSound(w', q) {
      assert ProcSound(w, q);
      if w.procs[q].Draining? {
        var d := w.procs[q];
        forall j | 0 <= j < d.next && j < |d.data| ensures SafeBeyond(w', w'.born[q], d.data[j]) {
          CarriedIsSafe(w, w', w.born[q], d.data[j]);
        }
      }
    }
    forall rec | rec in w'.spooled ensures Safe(w', rec) {
      SafeIsSafeBeyondNone(w, rec);
      CarriedIsSafe(w, w', -1, rec);
      SafeIsSafeBeyondNone(w', rec);
    }
    AppendKeepsMids(f, p);
  }

  lemma AppendKeepsMids(f: Fine, p: Pid)
    requires FineInv(f) && FinePossible(f, SweepAppend(p))
    ensures var f' := FineStep(f, SweepAppend(p)); forall q :: q in f'.mid ==> MidSound(f'.w, q, f'.mid[q])
  {
    var f' := FineStep(f, SweepAppend(p));
    assert Carries(f.w, f'.w);
    forall q | q in f'.mid ensures MidSound(f'.w, q, f'.mid[q]) {
      var m := f.mid[q];
      assert MidSound(f.w, q, m);
      if q != p && m.appended {
        forall rec | rec in m.data ensures SafeBeyond(f'.w, m.born, rec) { CarriedIsSafe(f.w, f'.w, m.born, rec); }
      }
    }
  }

  /** A removal that hits the claim it read, or none, loses nothing. */
  lemma RemoveKeeps(f: Fine, p: Pid)
    requires FineInv(f) && FinePossible(f, SweepRemove(p)) && !Late(f, p)
    ensures FineInv(FineStep(f, SweepRemove(p)))
  {
    var f' := FineStep(f, SweepRemove(p));
    var w, w', v := f.w, f'.w, f.mid[p].victim;
    assert MidSound(w, p, f.mid[p]) && ProcSound(w, p);
    if v in w.claims {
      assert Spent(w, v) && Drops(w, w', v);
      RemovalKeepsInv(w, w', v);
    } else {
      assert w'.claims == w.claims;
      OnlyProcsMoved(w, w');
    }
    forall q | q in f'.mid ensures MidSound(w', q, f'.mid[q]) {
      var m := f.mid[q];
      assert MidSound(w, q, m);
      if m.appended {
        forall rec | rec in m.data ensures SafeBeyond(w', m.born, rec) {
          if v in w.claims { SpentCanGo(w, w', v, m.born, rec); } else { SamePlaces(w, w', m.born, rec); }
        }
      }
    }
  }

  lemma FineStepKeeps(f: Fine, a: FineAct)
    requires FineInv(f) && FinePossible(f, a) && (a.SweepRemove? ==> !Late(f, a.p))
    ensures FineInv(FineStep(f, a))
  {
    match a
    case Coarse(b) => CoarseKeeps(f, b);
    case SweepMissing(p, victim) =>
      assert ProcSound(f.w, p);
      OnlyProcsMoved(f.w, FineStep(f, a).w);
      MissingKeepsMids(f, p, victim);
    case SweepRead(p, victim) =>
      assert forall q :: q in f.mid ==> MidSound(f.w, q, f.mid[q]);
    case SweepAppend(p) => AppendKeeps(f, p);
    case SweepRemove(p) => RemoveKeeps(f, p);
  }

  lemma MissingKeepsMids(f: Fine, p: Pid, victim: Pid)
    requires FineInv(f) && FinePossible(f, SweepMissing(p, victim))
    ensures var f' := FineStep(f, SweepMissing(p, victim)); forall q :: q in f'.mid ==> MidSound(f'.w, q, f'.mid[q])
  {
    var f' := FineStep(f, SweepMissing(p, victim));
    forall q | q in f'.mid ensures MidSound(f'.w, q, f'.mid[q]) {
      var m := f.mid[q];
      assert MidSound(f.w, q, m);
      if m.appended {
        forall rec | rec in m.data ensures SafeBeyond(f'.w, m.born, rec) { SamePlaces(f.w, f'.w, m.born, rec); }
      }
    }
  }

  /** No removal of the run is late. */
  ghost predicate NeverLate(f: Fine, acts: seq<FineAct>)
    decreases |acts|
  {
    acts != [] && FinePossible(f, acts[0]) ==>
      (acts[0].SweepRemove? ==> !Late(f, acts[0].p)) && NeverLate(FineStep(f, acts[0]), acts[1..])
  }

  lemma {:induction false} FineRunKeeps(f: Fine, acts: seq<FineAct>, f': Fine)
    requires FineInv(f) && FineReaches(f, acts, f') && NeverLate(f, acts)
    ensures FineInv(f')
    decreases |acts|
  {
    if acts != [] {
      FineStepKeeps(f, acts[0]);
      FineRunKeeps(FineStep(f, acts[0]), acts[1..], f');
    }
  }

  /** Conservation for the file operations as they really go: over every run in
      which no removal is late. */
  lemma NothingIsLostUnlessLate(w0: World, acts: seq<FineAct>, f: Fine, rec: Rec)
    requires Initial(w0) && FineReaches(Fine(w0, map[]), acts, f) && NeverLate(Fine(w0, map[]), acts) && rec in f.w.spooled
    ensures Safe(f.w, rec)
  {
    FineRunKeeps(Fine(w0, map[]), acts, f);
  }

  /** The claim is the only place the record is in. */
  ghost predicate HeldOnlyIn(w: World, v: Pid, rec: Rec) {
    InClaim(w, v, rec) && !Settled(w, rec) && rec !in w.spool && forall q :: InClaim(w, q, rec) ==> q == v
  }

  /** After such a run the next removal loses exactly the records only the removed
      claim holds; one that is not late finds none. */
  lemma RemovalLosesExactly(w0: World, acts: seq<FineAct>, f: Fine, p: Pid, rec: Rec)
    requires Initial(w0) && FineReaches(Fine(w0, map[]), acts, f) && NeverLate(Fine(w0, map[]), acts) && rec in f.w.spooled
    requires FinePossible(f, SweepRemove(p))
    ensures !Safe(FineStep(f, SweepRemove(p)).w, rec) <==> HeldOnlyIn(f.w, f.mid[p].victim, rec)
    ensures !Safe(FineStep(f, SweepRemove(p)).w, rec) ==> Late(f, p)
  {
    var w', v := FineStep(f, SweepRemove(p)).w, f.mid[p].victim;
    FineRunKeeps(Fine(w0, map[]), acts, f);
    if !Late(f, p) { RemoveKeeps(f, p); }
    forall q ensures InClaim(w', q, rec) <==> InClaim(f.w, q, rec) && q != v { }
    if !HeldOnlyIn(f.w, v, rec) && !Settled(f.w, rec) && rec !in f.w.spool {
      var q :| InClaim(f.w, q, rec);
      if q == v {
        var q' :| InClaim(f.w, q', rec) && q' != v;
        assert InClaim(w', q', rec);
      } else {
        assert InClaim(w', q, rec);
      }
    }
  }
}
