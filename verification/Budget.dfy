/** The curation budget (internal/curate/budget.go) and its gate in curate.go:
    a run is refused when recorded usage plus the run's projection would cross a
    cap, so no calendar window is ever overrun. Token caps only. Times are in
    seconds since 1970-01-01 UTC. */
module Budget {
  import opened Options

  const DAY: nat := 86_400

  datatype Window = Daily | Weekly | Monthly

  // ---- the calendar ----

  function YearOf(month: nat): nat { 1970 + month / 12 }

  predicate LeapYear(y: nat) { (y % 4 == 0 && y % 100 != 0) || y % 400 == 0 }

  /** The days of a month counted from January 1970. */
  function MonthLength(month: nat): (n: nat)
    ensures 28 <= n <= 31
  {
    match month % 12
    case 1 => if LeapYear(YearOf(month)) then 29 else 28
    case 3 => 30
    case 5 => 30
    case 8 => 30
    case 10 => 30
    case _ => 31
  }

  /** The first day of the month that day falls in, searched from a month that
      starts on first. */
  function MonthStart(month: nat, first: nat, day: nat): (start: nat)
    requires first <= day
    ensures first <= start <= day < start + 31
    decreases day - first
  {
    if day < first + MonthLength(month) then first else MonthStart(month + 1, first + MonthLength(month), day)
  }

  /** 1970-01-01 was a Thursday; weeks start on Monday, 00:00 UTC. */
  function MondayOf(day: nat): int { day - (day + 3) % 7 }

  function CalendarStart(w: Window, now: nat): int {
    match w
    case Daily => now / DAY * DAY
    case Weekly => MondayOf(now / DAY) * DAY
    case Monthly => MonthStart(0, 0, now / DAY) * DAY
  }

  /** `WindowStart`, moved forward to the budget's epoch when that is later. */
  function WindowStart(w: Window, now: nat, epoch: Option<int>): int {
    var s := CalendarStart(w, now);
    if epoch.Some? && epoch.value > s then epoch.value else s
  }

  lemma {:induction false} MonthStartMonotone(month: nat, first: nat, d: nat, e: nat)
    requires first <= d <= e
    ensures MonthStart(month, first, d) <= MonthStart(month, first, e)
    decreases d - first
  {
    if d >= first + MonthLength(month) {
      MonthStartMonotone(month + 1, first + MonthLength(month), d, e);
    }
  }

  /** Windows only move forward. */
  lemma StartMonotone(w: Window, now: nat, later: nat, epoch: Option<int>)
    requires now <= later
    ensures WindowStart(w, now, epoch) <= WindowStart(w, later, epoch)
  {
    assert now / DAY <= later / DAY;
    MonthStartMonotone(0, 0, now / DAY, later / DAY);
    assert MondayOf(now / DAY) <= MondayOf(later / DAY);
  }

  // ---- which days the windows start on ----

  /** A day's window is its 24 hours; a week's starts at midnight of the Monday at or
      before now: the epoch was a Thursday, three days after one. */
  lemma DayAndWeekStart(now: nat)
    ensures var d := CalendarStart(Daily, now); d <= now < d + 24 * 3600 && d % (24 * 3600) == 0
    ensures var d := CalendarStart(Weekly, now);
            d <= now < d + 7 * 24 * 3600 && d % (24 * 3600) == 0 && (d / (24 * 3600) + 3) % 7 == 0
  {
    var day := now / DAY;
    MidnightOf(day);
    MidnightOf(MondayOf(day));
    MondayIs(day);
    assert day * DAY <= now < day * DAY + DAY;
  }

  lemma MidnightOf(day: int)
    ensures day * DAY % (24 * 3600) == 0 && day * DAY / (24 * 3600) == day
  {
  }

  lemma MondayIs(day: nat)
    ensures MondayOf(day) <= day < MondayOf(day) + 7 && (MondayOf(day) + 3) % 7 == 0
  {
  }

  /** The first day of a month counted from January 1970. */
  function FirstOf(month: nat): nat
    decreases month
  {
    if month == 0 then 0 else FirstOf(month - 1) + MonthLength(month - 1)
  }

  lemma {:induction false} MonthStartIs(month: nat, day: nat) returns (at: nat)
    requires FirstOf(month) <= day
    ensures MonthStart(month, FirstOf(month), day) == FirstOf(at) && at >= month
    ensures FirstOf(at) <= day < FirstOf(at + 1)
    decreases day - FirstOf(month)
  {
    if day < FirstOf(month) + MonthLength(month) { return month; }
    assert FirstOf(month + 1) == FirstOf(month) + MonthLength(month);
    at := MonthStartIs(month + 1, day);
  }

  /** A month's window starts at midnight of the first of the month that holds now. */
  lemma MonthlyStart(now: nat) returns (month: nat)
    ensures CalendarStart(Monthly, now) == FirstOf(month) * (24 * 3600)
    ensures FirstOf(month) * (24 * 3600) <= now < FirstOf(month + 1) * (24 * 3600)
  {
    month := MonthStartIs(0, now / DAY);
  }

  /** How many leap days there are before a year, since year 0. */
  function LeapDays(year: nat): int
    requires year > 0
  {
    (year - 1) / 4 - (year - 1) / 100 + (year - 1) / 400
  }

  lemma LeapDayStep(year: nat)
    requires year > 0
    ensures LeapDays(year + 1) - LeapDays(year) == if year % 400 == 0 || (year % 4 == 0 && year % 100 != 0) then 1 else 0
  {
    assert year / 4 - (year - 1) / 4 == if year % 4 == 0 then 1 else 0;
    assert year / 100 - (year - 1) / 100 == if year % 100 == 0 then 1 else 0;
    assert year / 400 - (year - 1) / 400 == if year % 400 == 0 then 1 else 0;
  }

  lemma MonthOfYear(k: nat, i: nat)
    requires i < 12
    ensures (12 * k + i) % 12 == i && YearOf(12 * k + i) == 1970 + k
    ensures FirstOf(12 * k + i + 1) == FirstOf(12 * k + i) + MonthLength(12 * k + i)
  {
  }

  /** The months of a year, from its first day. */
  lemma MonthsOfYear(k: nat)
    ensures var (j, leap) := (FirstOf(12 * k), if LeapYear(1970 + k) then 1 else 0);
            && FirstOf(12 * k + 1) == j + 31 && FirstOf(12 * k + 2) == j + 59 + leap && FirstOf(12 * k + 3) == j + 90 + leap
            && FirstOf(12 * k + 4) == j + 120 + leap && FirstOf(12 * k + 5) == j + 151 + leap && FirstOf(12 * k + 6) == j + 181 + leap
            && FirstOf(12 * k + 7) == j + 212 + leap && FirstOf(12 * k + 8) == j + 243 + leap && FirstOf(12 * k + 9) == j + 273 + leap
            && FirstOf(12 * k + 10) == j + 304 + leap && FirstOf(12 * k + 11) == j + 334 + leap
            && FirstOf(12 * k + 12) == j + 365 + leap
  {
    FirstHalf(k);
    MonthOfYear(k, 6);
    MonthOfYear(k, 7);
    MonthOfYear(k, 8);
    MonthOfYear(k, 9);
    MonthOfYear(k, 10);
    MonthOfYear(k, 11);
  }

  lemma FirstHalf(k: nat)
    ensures var (j, leap) := (FirstOf(12 * k), if LeapYear(1970 + k) then 1 else 0);
            && FirstOf(12 * k + 1) == j + 31 && FirstOf(12 * k + 2) == j + 59 + leap && FirstOf(12 * k + 3) == j + 90 + leap
            && FirstOf(12 * k + 4) == j + 120 + leap && FirstOf(12 * k + 5) == j + 151 + leap && FirstOf(12 * k + 6) == j + 181 + leap
  {
    MonthOfYear(k, 0);
    MonthOfYear(k, 1);
    MonthOfYear(k, 2);
    MonthOfYear(k, 3);
    MonthOfYear(k, 4);
    MonthOfYear(k, 5);
  }

  lemma YearLength(k: nat)
    ensures FirstOf(12 * (k + 1)) == FirstOf(12 * k) + 365 + if LeapYear(1970 + k) then 1 else 0
  {
    MonthsOfYear(k);
    assert 12 * k + 12 == 12 * (k + 1);
  }

  /** Year 1970 + k starts as many days after the epoch as the Gregorian rule says. */
  lemma {:induction false} YearStarts(k: nat)
    ensures FirstOf(12 * k) == 365 * k + LeapDays(1970 + k) - LeapDays(1970)
    decreases k
  {
    if k > 0 {
      YearStarts(k - 1);
      YearLength(k - 1);
      LeapDayStep(1969 + k);
    }
  }

  // ---- usage ----

  /** A recorded run; own is false for a record synced from another host. */
  datatype Rec = Rec(ts: int, input: nat, output: nat, own: bool)

  predicate Counts(r: Rec, since: int) { r.own && r.ts >= since }

  function InputSince(h: seq<Rec>, since: int): nat
    decreases |h|
  {
    if h == [] then 0
    else InputSince(h[..|h| - 1], since) + if Counts(h[|h| - 1], since) then h[|h| - 1].input else 0
  }

  function OutputSince(h: seq<Rec>, since: int): nat
    decreases |h|
  {
    if h == [] then 0
    else OutputSince(h[..|h| - 1], since) + if Counts(h[|h| - 1], since) then h[|h| - 1].output else 0
  }

  /** A cap's dimensions; 0 is no limit. */
  datatype Cap = Cap(tokens: int, input: int, output: int)

  datatype Budget = Budget(caps: map<Window, Cap>, epoch: Option<int>)

  datatype Projection = Projection(input: nat, output: nat)

  /** `ProjectRun`: the worst case of a run, from its caps. */
  function ProjectRun(maxEvents: nat, maxFacts: nat): Projection { Projection(maxEvents * 500 + 600, maxFacts * 80 + 200) }

  predicate Fits(c: Cap, input: nat, output: nat) {
    && (c.tokens > 0 ==> input + output <= c.tokens)
    && (c.input > 0 ==> input <= c.input)
    && (c.output > 0 ==> output <= c.output)
  }

  /** `WindowUsage` over one history. */
  method WindowUsage(h: seq<Rec>, w: Window, now: nat, epoch: Option<int>) returns (input: nat, output: nat)
    ensures var since := WindowStart(w, now, epoch);
            input == InputSince(h, since) && output == OutputSince(h, since)
  {
    var since := WindowStart(w, now, epoch);
    input, output := 0, 0;
    for i := 0 to |h|
      invariant input == InputSince(h[..i], since) && output == OutputSince(h[..i], since)
    {
      assert h[..i + 1][..i] == h[..i];
      var r := h[i];
      if r.ts < since || !r.own {
        continue;
      }
      input, output := input + r.input, output + r.output;
    }
    assert h[..|h|] == h;
  }

  /** Usage is this host's, from the window's start on: another record adds its
      tokens exactly when it is both. */
  lemma UsageExactly(h: seq<Rec>, r: Rec, since: int)
    ensures InputSince([], since) == 0 == OutputSince([], since)
    ensures InputSince(h + [r], since) == InputSince(h, since) + if r.own && since <= r.ts then r.input else 0
    ensures OutputSince(h + [r], since) == OutputSince(h, since) + if r.own && since <= r.ts then r.output else 0
  {
    assert (h + [r])[..|h|] == h;
  }

  /** The projected run fits every capped window. */
  ghost predicate Admits(b: Budget, h: seq<Rec>, p: Projection, now: nat) {
    forall w :: w in b.caps ==>
      var since := WindowStart(w, now, b.epoch);
      Fits(b.caps[w], InputSince(h, since) + p.input, OutputSince(h, since) + p.output)
  }

  /** `CheckBudget`. */
  method CheckBudget(b: Budget, h: seq<Rec>, p: Projection, now: nat) returns (ok: bool)
    ensures ok <==> Admits(b, h, p, now)
  {
    var windows := [Daily, Weekly, Monthly];
    ok := true;
    for i := 0 to 3
      invariant ok
      invariant forall j :: 0 <= j < i && windows[j] in b.caps ==>
                  var since := WindowStart(windows[j], now, b.epoch);
                  Fits(b.caps[windows[j]], InputSince(h, since) + p.input, OutputSince(h, since) + p.output)
    {
      if windows[i] in b.caps {
        var c := b.caps[windows[i]];
        var input, output := WindowUsage(h, windows[i], now, b.epoch);
        if (c.tokens > 0 && input + output + p.input + p.output > c.tokens)
           || (c.input > 0 && input + p.input > c.input) || (c.output > 0 && output + p.output > c.output) {
          return false;
        }
      }
    }
    assert windows[0] == Daily && windows[1] == Weekly && windows[2] == Monthly;
  }

  /** Input and output tokens within a cap; a dimension of 0 is not capped. */
  predicate Within(c: Cap, input: nat, output: nat) {
    && (c.tokens <= 0 || input + output <= c.tokens)
    && (c.input <= 0 || input <= c.input)
    && (c.output <= 0 || output <= c.output)
  }

  /** The gate admits a run exactly when in every capped window, from its calendar
      start or the epoch if that is later, the usage so far and the projection
      together stay within each of the three caps. */
  lemma AdmitsExactly(b: Budget, h: seq<Rec>, p: Projection, now: nat)
    ensures Admits(b, h, p, now) <==>
              forall w :: w in b.caps ==>
                var start := CalendarStart(w, now);
                var since := match b.epoch case Some(e) => (if e > start then e else start) case None => start;
                Within(b.caps[w], InputSince(h, since) + p.input, OutputSince(h, since) + p.output)
  {
    forall w | w in b.caps
      ensures var start := CalendarStart(w, now);
              WindowStart(w, now, b.epoch) == match b.epoch case Some(e) => (if e > start then e else start) case None => start
    {
    }
    assert forall c, i, o :: Fits(c, i, o) <==> Within(c, i, o);
  }

  // ---- sequential runs behind one gate ----

  /** One run under its caps: checked, then recorded, perhaps in a later window.
      embedding is the dedup spend recorded beside it. */
  datatype Gated = Gated(
    checkAt: nat, recordAt: nat, maxEvents: nat, maxFacts: nat, input: nat, output: nat, embedding: nat)
  {
    function Projected(): Projection { ProjectRun(maxEvents, maxFacts) }
  }

  /** What the gate and the meter make of it. */
  ghost predicate Runs(b: Budget, h: seq<Rec>, g: Gated, last: nat) {
    && last <= g.checkAt <= g.recordAt
    && Admits(b, h, g.Projected(), g.checkAt)
  }

  function Recorded(h: seq<Rec>, g: Gated): seq<Rec> {
    var h' := h + [Rec(g.recordAt, g.input, g.output, true)];
    if g.embedding > 0 then h' + [Rec(g.recordAt, g.embedding, 0, true)] else h'
  }

  /** The run's recorded spend, embeddings included, is within its projection. */
  predicate WithinProjection(g: Gated) {
    g.input + g.embedding <= g.Projected().input && g.output <= g.Projected().output
  }

  /** From a time on, no capped window holds more than its cap. */
  ghost predicate NeverOver(b: Budget, h: seq<Rec>, from: nat) {
    forall w, t: nat :: w in b.caps && from <= t ==>
      var since := WindowStart(w, t, b.epoch);
      Fits(b.caps[w], InputSince(h, since), OutputSince(h, since))
  }

  lemma {:induction false} UsageShrinks(h: seq<Rec>, since: int, later: int)
    requires since <= later
    ensures InputSince(h, later) <= InputSince(h, since) && OutputSince(h, later) <= OutputSince(h, since)
    decreases |h|
  {
    if h != [] { UsageShrinks(h[..|h| - 1], since, later); }
  }

  lemma UsageGrows(h: seq<Rec>, r: Rec, since: int)
    ensures InputSince(h + [r], since) == InputSince(h, since) + if Counts(r, since) then r.input else 0
    ensures OutputSince(h + [r], since) == OutputSince(h, since) + if Counts(r, since) then r.output else 0
  {
    assert (h + [r])[..|h|] == h;
  }

  lemma RecordedUsage(h: seq<Rec>, g: Gated, since: int)
    ensures InputSince(Recorded(h, g), since) == InputSince(h, since) + if g.recordAt >= since then g.input + g.embedding else 0
    ensures OutputSince(Recorded(h, g), since) == OutputSince(h, since) + if g.recordAt >= since then g.output else 0
  {
    var first, second := Rec(g.recordAt, g.input, g.output, true), Rec(g.recordAt, g.embedding, 0, true);
    UsageGrows(h, first, since);
    UsageGrows(h + [first], second, since);
  }

  lemma RunKeepsBudget(b: Budget, h: seq<Rec>, g: Gated, last: nat)
    requires NeverOver(b, h, last) && Runs(b, h, g, last) && WithinProjection(g)
    ensures NeverOver(b, Recorded(h, g), g.recordAt)
  {
    forall w, t: nat | w in b.caps && g.recordAt <= t
      ensures var since := WindowStart(w, t, b.epoch);
              Fits(b.caps[w], InputSince(Recorded(h, g), since), OutputSince(Recorded(h, g), since))
    {
      var since := WindowStart(w, t, b.epoch);
      RecordedUsage(h, g, since);
      StartMonotone(w, g.checkAt, t, b.epoch);
      UsageShrinks(h, WindowStart(w, g.checkAt, b.epoch), since);
      assert Fits(b.caps[w], InputSince(h, since), OutputSince(h, since));
    }
  }

  ghost predicate Sequence(b: Budget, h: seq<Rec>, gs: seq<Gated>, last: nat, h': seq<Rec>, last': nat)
    decreases |gs|
  {
    if gs == [] then h == h' && last == last'
    else Runs(b, h, gs[0], last) && Sequence(b, Recorded(h, gs[0]), gs[1..], gs[0].recordAt, h', last')
  }

  /** Budgets are never overrun: after any sequence of gated runs, each recorded
      within its projection, no capped window is over its cap at any later time,
      also when runs are recorded after a window boundary. */
  lemma {:induction false} BudgetsAreNeverOverrun(b: Budget, h: seq<Rec>, gs: seq<Gated>, last: nat, h': seq<Rec>, last': nat)
    requires NeverOver(b, h, last) && Sequence(b, h, gs, last, h', last')
    requires forall g :: g in gs ==> WithinProjection(g)
    ensures NeverOver(b, h', last')
    decreases |gs|
  {
    if gs != [] {
      assert gs[0] in gs;
      RunKeepsBudget(b, h, gs[0], last);
      BudgetsAreNeverOverrun(b, Recorded(h, gs[0]), gs[1..], gs[0].recordAt, h', last');
    }
  }

  /** In so many words: from an empty history, no daily, weekly or monthly window
      ever holds more than any of its caps. */
  lemma NoCapIsEverExceeded(b: Budget, gs: seq<Gated>, h: seq<Rec>, last: nat, w: Window, t: nat)
    requires Sequence(b, [], gs, 0, h, last) && (forall g :: g in gs ==> WithinProjection(g)) && w in b.caps && last <= t
    ensures var since := WindowStart(w, t, b.epoch);
            var (cap, input, output) := (b.caps[w], InputSince(h, since), OutputSince(h, since));
            && (cap.tokens > 0 ==> input + output <= cap.tokens)
            && (cap.input > 0 ==> input <= cap.input) && (cap.output > 0 ==> output <= cap.output)
  {
    forall w, t: nat | w in b.caps ensures var since := WindowStart(w, t, b.epoch); Fits(b.caps[w], InputSince([], since), OutputSince([], since)) {
      assert InputSince([], WindowStart(w, t, b.epoch)) == 0 == OutputSince([], WindowStart(w, t, b.epoch));
    }
    assert NeverOver(b, [], 0);
    BudgetsAreNeverOverrun(b, [], gs, 0, h, last);
  }

  /** Whatever the budget and the history, the gate keeps this run within every
      cap. */
  ghost predicate AlwaysSafe(g: Gated, last: nat) {
    forall b: Budget, h: seq<Rec> :: NeverOver(b, h, last) && Runs(b, h, g, last) ==> NeverOver(b, Recorded(h, g), g.recordAt)
  }

  /** The gate is safe for a run exactly when its recorded spend, embeddings
      included, is within its projection in both directions. */
  lemma GateIsSafeExactly(g: Gated, last: nat)
    requires last <= g.checkAt <= g.recordAt
    ensures AlwaysSafe(g, last) <==> WithinProjection(g)
  {
    if WithinProjection(g) {
      forall b: Budget, h: seq<Rec> | NeverOver(b, h, last) && Runs(b, h, g, last) ensures NeverOver(b, Recorded(h, g), g.recordAt) {
        RunKeepsBudget(b, h, g, last);
      }
    } else {
      TightBudgetOverruns(g, last);
    }
  }

  /** The budget that allows just the projection, on an empty history. */
  function Tight(p: Projection): Budget { Budget(map[Daily := Cap(0, p.input, p.output)], None) }

  lemma TightAdmits(p: Projection, now: nat)
    ensures NeverOver(Tight(p), [], now) && Admits(Tight(p), [], p, now)
  {
    assert InputSince([], WindowStart(Daily, now, None)) == 0 == OutputSince([], WindowStart(Daily, now, None));
  }

  lemma TightBudgetOverruns(g: Gated, last: nat)
    requires last <= g.checkAt <= g.recordAt && !WithinProjection(g)
    ensures NeverOver(Tight(g.Projected()), [], last) && Runs(Tight(g.Projected()), [], g, last)
    ensures !NeverOver(Tight(g.Projected()), Recorded([], g), g.recordAt)
  {
    TightAdmits(g.Projected(), last);
    TightAdmits(g.Projected(), g.checkAt);
    var since := CalendarStart(Daily, g.recordAt);
    assert since == WindowStart(Daily, g.recordAt, None) && since <= g.recordAt;
    RecordedUsage([], g, since);
    assert !Fits(Tight(g.Projected()).caps[Daily], InputSince(Recorded([], g), since), OutputSince(Recorded([], g), since));
  }

  /** A run of these caps whose completion stays within the projection, and whose
      dedup embeds at most so many tokens. */
  predicate MayRun(g: Gated, maxEvents: nat, maxFacts: nat, embeds: nat, last: nat) {
    && g.maxEvents == maxEvents && g.maxFacts == maxFacts && last <= g.checkAt <= g.recordAt
    && g.input <= g.Projected().input && g.output <= g.Projected().output && g.embedding <= embeds
  }

  /** The projection does not cover the dedup's embeddings: under any caps, the
      gate is safe for every such run exactly when nothing may be embedded. */
  lemma GateIsSafeWithoutEmbedder(maxEvents: nat, maxFacts: nat, embeds: nat, last: nat)
    ensures (forall g :: MayRun(g, maxEvents, maxFacts, embeds, last) ==> AlwaysSafe(g, last)) <==> embeds == 0
  {
    if embeds == 0 {
      forall g | MayRun(g, maxEvents, maxFacts, embeds, last) ensures AlwaysSafe(g, last) { GateIsSafeExactly(g, last); }
    } else {
      var p := ProjectRun(maxEvents, maxFacts);
      var g := Gated(last, last, maxEvents, maxFacts, p.input, p.output, embeds);
      GateIsSafeExactly(g, last);
      assert MayRun(g, maxEvents, maxFacts, embeds, last) && !AlwaysSafe(g, last);
    }
  }
}
