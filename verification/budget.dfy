/** What the workers' reports cost, what a startup has spent, and the thresholds that its spending crosses. Amounts are
    real numbers. */
module Budget {
  import opened Wrappers
  import opened Path
  import opened State
  import opened Db
  import Scheduler

  type ModelId = string

  /** Dollars per million tokens in and out. */
  function PricePerMtok(model: ModelId): Option<(real, real)> {
    if model == "claude-3-5-sonnet" || model == "claude-3-5-sonnet-20241022" then Some((3.0, 15.0))
    else if model == "claude-3-5-haiku" || model == "claude-3-5-haiku-20241022" then Some((1.0, 5.0))
    else if model == "claude-3-opus" || model == "claude-3-opus-20240229" then Some((15.0, 75.0))
    else if model == "gpt-4o" || model == "gpt-4o-2024-08-06" then Some((2.5, 10.0))
    else if model == "gpt-4o-mini" then Some((0.15, 0.6))
    else if model == "gpt-5-chatgpt" then Some((1.25, 10.0))
    else if model == "opencode-default" then Some((1.0, 5.0))
    else None
  }

  /** A cost that the worker reports itself; a floating-point one may be infinite or not a number. */
  datatype Override = NoOverride | Finite(cost: real) | NotFinite

  datatype Report = Report(startup: StartupId, agent: AgentId, task: Option<TaskId>, model: ModelId,
                           input: nat, output: nat, cost: Override)

  function CostUsd(model: ModelId, input: nat, output: nat): real {
    var price := PricePerMtok(model);
    if price.None? then 0.0
    else (input as real / 1000000.0) * price.value.0 + (output as real / 1000000.0) * price.value.1
  }

  /** The prices as a table. */
  const PRICES: map<ModelId, (real, real)> :=
    map["claude-3-5-sonnet" := (3.0, 15.0), "claude-3-5-sonnet-20241022" := (3.0, 15.0),
        "claude-3-5-haiku" := (1.0, 5.0), "claude-3-5-haiku-20241022" := (1.0, 5.0),
        "claude-3-opus" := (15.0, 75.0), "claude-3-opus-20240229" := (15.0, 75.0),
        "gpt-4o" := (2.5, 10.0), "gpt-4o-2024-08-06" := (2.5, 10.0),
        "gpt-4o-mini" := (0.15, 0.6), "gpt-5-chatgpt" := (1.25, 10.0),
        "opencode-default" := (1.0, 5.0)]

  lemma PricesAgree(model: ModelId)
    ensures PricePerMtok(model) == if model in PRICES then Some(PRICES[model]) else None
  {}

  /** Reporting in two parts costs as much as reporting at once; a million tokens in or out cost the first or the second
      price of the model in the table, and nothing for any other model. */
  lemma CostIsAdditive(model: ModelId, in1: nat, out1: nat, in2: nat, out2: nat)
    ensures CostUsd(model, in1 + in2, out1 + out2) == CostUsd(model, in1, out1) + CostUsd(model, in2, out2)
    ensures var price := if model in PRICES then PRICES[model] else (0.0, 0.0);
            CostUsd(model, 1000000, 0) == price.0 && CostUsd(model, 0, 1000000) == price.1
  {
    PricesAgree(model);
    var price := PricePerMtok(model);
    if price.Some? {
      Distribute(in1, in2, price.value.0);
      Distribute(out1, out2, price.value.1);
    }
  }

  lemma Distribute(m: nat, n: nat, price: real)
    ensures ((m + n) as real / 1000000.0) * price == (m as real / 1000000.0) * price + (n as real / 1000000.0) * price
  {
    assert (m + n) as real / 1000000.0 == m as real / 1000000.0 + n as real / 1000000.0;
  }

  /** The worker's own figure if it is usable, the table's otherwise. */
  function CostOf(r: Report): real {
    if r.cost.Finite? && r.cost.cost >= 0.0 then r.cost.cost else CostUsd(r.model, r.input, r.output)
  }

  lemma ProductNonNegative(x: real, y: real)
    requires x >= 0.0 && y >= 0.0
    ensures x * y >= 0.0
  {}

  /** No report lowers what is spent. */
  lemma CostIsNonNegative(r: Report)
    ensures CostOf(r) >= 0.0
  {
    var price := PricePerMtok(r.model);
    if price.Some? {
      assert price.value.0 >= 0.0 && price.value.1 >= 0.0;
      ProductNonNegative(r.input as real / 1000000.0, price.value.0);
      ProductNonNegative(r.output as real / 1000000.0, price.value.1);
    }
  }

  datatype Threshold = Warn80 | Warn95 | Pause100

  /** The highest threshold crossed from one amount spent to another. */
  function NewlyCrossed(before: real, after: real, cap: real): Option<Threshold> {
    if cap <= 0.0 then None
    else if before / cap < 1.0 <= after / cap then Some(Pause100)
    else if before / cap < 0.95 <= after / cap then Some(Warn95)
    else if before / cap < 0.8 <= after / cap then Some(Warn80)
    else None
  }

  /** The rungs of the ladder: 0 below 80% of the cap, 1 from 80%, 2 from 95%, 3 from 100% on. */
  function Rung(spent: real, cap: real): nat
    requires cap > 0.0
  {
    if spent / cap >= 1.0 then 3 else if spent / cap >= 0.95 then 2 else if spent / cap >= 0.8 then 1 else 0
  }

  function RungOf(t: Threshold): nat {
    match t
    case Warn80 => 1
    case Warn95 => 2
    case Pause100 => 3
  }

  /** A threshold is reported exactly when the spending climbs to a higher rung, and it is that rung's. */
  lemma CrossingIsClimbing(before: real, after: real, cap: real)
    requires cap > 0.0
    ensures NewlyCrossed(before, after, cap).Some? <==> Rung(before, cap) < Rung(after, cap)
    ensures NewlyCrossed(before, after, cap).Some? ==>
              RungOf(NewlyCrossed(before, after, cap).value) == Rung(after, cap)
  {}

  lemma SpendingClimbs(before: real, after: real, cap: real)
    requires cap > 0.0 && before <= after
    ensures Rung(before, cap) <= Rung(after, cap)
  {
    assert before / cap <= after / cap;
  }

  datatype BudgetEvent =
    BudgetEvent(startup: StartupId, agent: AgentId, task: Option<TaskId>, input: nat, output: nat, cost: real,
                model: ModelId)

  /** The startups table and the `budget_events` table. */
  datatype Books = Books(startups: StartupTable, events: seq<BudgetEvent>)

  function EventOf(r: Report): BudgetEvent {
    BudgetEvent(r.startup, r.agent, r.task, r.input, r.output, CostOf(r), r.model)
  }

  ghost function AfterReport(b: Books, r: Report): Books {
    if r.startup !in b.startups then b
    else
      var s := b.startups[r.startup];
      Books(b.startups[r.startup := s.(spent := s.spent + CostOf(r))], b.events + [EventOf(r)])
  }

  /** The threshold that a report makes a startup cross. */
  ghost function Crossed(b: Books, r: Report, sid: StartupId): Option<Threshold> {
    if r.startup != sid || sid !in b.startups then None
    else
      var s := b.startups[sid];
      NewlyCrossed(s.spent, s.spent + CostOf(r), s.cap)
  }

  class Ledger {
    const db: Database
    var events: seq<BudgetEvent>

    constructor (db: Database)
      ensures this.db == db && events == []
    {
      this.db := db;
      events := [];
    }

    ghost function Contents(): Books
      reads this, db
    {
      Books(db.startups, events)
    }

    /** Records a worker's report. */
    method ApplyReport(r: Report) returns (spent: real, cap: real, crossed: Option<Threshold>)
      modifies this, db`startups
      ensures Contents() == AfterReport(old(Contents()), r)
      ensures crossed == Crossed(old(Contents()), r, r.startup)
      ensures (spent, cap) ==
              if r.startup in db.startups then (db.startups[r.startup].spent, db.startups[r.startup].cap)
              else (0.0, 0.0)
      // The worker's own figure counts if it is finite and not negative, otherwise what the tokens cost.
      ensures r.startup in old(db.startups) ==>
                spent - old(db.startups)[r.startup].spent ==
                match r.cost
                case Finite(own) => if own < 0.0 then CostUsd(r.model, r.input, r.output) else own
                case _ => CostUsd(r.model, r.input, r.output)
    {
      var cost := if r.cost.Finite? && r.cost.cost >= 0.0 then r.cost.cost else CostUsd(r.model, r.input, r.output);
      if r.startup !in db.startups {
        return 0.0, 0.0, None;
      }
      var s := db.startups[r.startup];
      spent, cap := s.spent + cost, s.cap;
      db.startups := db.startups[r.startup := s.(spent := spent)];
      events := events + [BudgetEvent(r.startup, r.agent, r.task, r.input, r.output, cost, r.model)];
      crossed := NewlyCrossed(s.spent, spent, cap);
    }
  }

  // ---------------------------------------------------------------- runs of reports

  ghost function AfterReports(b: Books, reports: seq<Report>): Books {
    if reports == [] then b else AfterReport(AfterReports(b, reports[..|reports| - 1]), reports[|reports| - 1])
  }

  /** The thresholds that a startup crosses during a run, in order. */
  ghost function AllCrossed(b: Books, reports: seq<Report>, sid: StartupId): seq<Threshold> {
    if reports == [] then []
    else
      var front, last := reports[..|reports| - 1], reports[|reports| - 1];
      var now := Crossed(AfterReports(b, front), last, sid);
      Appended(AllCrossed(b, front, sid), now)
  }

  /** What a startup's reports cost together. */
  ghost function TotalCost(reports: seq<Report>, sid: StartupId): real {
    if reports == [] then 0.0
    else TotalCost(reports[..|reports| - 1], sid) +
         (if reports[|reports| - 1].startup == sid then CostOf(reports[|reports| - 1]) else 0.0)
  }

  ghost function TotalOfEvents(events: seq<BudgetEvent>, sid: StartupId): real {
    if events == [] then 0.0
    else TotalOfEvents(events[..|events| - 1], sid) +
         (if events[|events| - 1].startup == sid then events[|events| - 1].cost else 0.0)
  }

  /** Nothing is lost: a startup has spent what it had plus the cost of its reports, and the recorded events add up to
      the same; its cap stays. */
  lemma {:induction false} SpendIsConserved(b: Books, reports: seq<Report>, sid: StartupId)
    requires sid in b.startups
    ensures var after := AfterReports(b, reports);
            && sid in after.startups && after.startups[sid].cap == b.startups[sid].cap
            && after.startups[sid].spent == b.startups[sid].spent + TotalCost(reports, sid)
            && TotalOfEvents(after.events, sid) == TotalOfEvents(b.events, sid) + TotalCost(reports, sid)
  {
    if reports != [] {
      var front, last := reports[..|reports| - 1], reports[|reports| - 1];
      SpendIsConserved(b, front, sid);
      var before := AfterReports(b, front).events;
      assert (before + [EventOf(last)])[..|before|] == before;
    }
  }

  ghost predicate Rising(ts: seq<Threshold>, floor: nat) {
    && (forall i :: 0 <= i < |ts| ==> RungOf(ts[i]) > floor)
    && forall i, j :: 0 <= i < j < |ts| ==> RungOf(ts[i]) < RungOf(ts[j])
  }

  /** Where the spending stands after some reported thresholds. */
  ghost function Standing(ts: seq<Threshold>, start: nat): nat {
    if ts == [] then start else RungOf(ts[|ts| - 1])
  }

  function Appended(ts: seq<Threshold>, now: Option<Threshold>): seq<Threshold> {
    ts + (if now.Some? then [now.value] else [])
  }

  lemma ClimbOnce(ts: seq<Threshold>, start: nat, before: real, after: real, cap: real)
    requires cap > 0.0 && before <= after
    requires Rising(ts, start) && Rung(before, cap) == Standing(ts, start)
    ensures var more := Appended(ts, NewlyCrossed(before, after, cap));
            Rising(more, start) && Rung(after, cap) == Standing(more, start)
  {
    CrossingIsClimbing(before, after, cap);
    SpendingClimbs(before, after, cap);
  }

  /** A startup's spending stands on the rung of the last threshold reported, all of them above the first rung. */
  ghost predicate StandsAfter(s: Startup, ts: seq<Threshold>, start: nat) {
    s.cap > 0.0 && Rising(ts, start) && Rung(s.spent, s.cap) == Standing(ts, start)
  }

  lemma ReportClimbs(s: Startup, r: Report, ts: seq<Threshold>, start: nat)
    requires StandsAfter(s, ts, start)
    ensures var after := s.spent + CostOf(r);
            StandsAfter(s.(spent := after), Appended(ts, NewlyCrossed(s.spent, after, s.cap)), start)
  {
    CostIsNonNegative(r);
    ClimbOnce(ts, start, s.spent, s.spent + CostOf(r), s.cap);
  }

  lemma StartupAfter(b: Books, r: Report, sid: StartupId)
    requires sid in b.startups
    ensures var s := b.startups[sid];
            && sid in AfterReport(b, r).startups
            && AfterReport(b, r).startups[sid] == (if r.startup == sid then s.(spent := s.spent + CostOf(r)) else s)
            && Crossed(b, r, sid) ==
               (if r.startup == sid then NewlyCrossed(s.spent, s.spent + CostOf(r), s.cap) else None)
  {}

  lemma StepStands(b: Books, r: Report, sid: StartupId, ts: seq<Threshold>, start: nat)
    requires sid in b.startups && StandsAfter(b.startups[sid], ts, start)
    ensures sid in AfterReport(b, r).startups
    ensures StandsAfter(AfterReport(b, r).startups[sid], Appended(ts, Crossed(b, r, sid)), start)
  {
    StartupAfter(b, r, sid);
    if r.startup == sid {
      ReportClimbs(b.startups[sid], r, ts, start);
    } else {
      assert Appended(ts, None) == ts;
    }
  }

  /** The reported thresholds rise strictly, so each is reported at most once and a jump reports only the highest; the
      last one reported is where the spending stands. */
  lemma {:induction false} ThresholdsRise(b: Books, reports: seq<Report>, sid: StartupId)
    requires sid in b.startups && b.startups[sid].cap > 0.0
    ensures sid in AfterReports(b, reports).startups
    ensures StandsAfter(AfterReports(b, reports).startups[sid], AllCrossed(b, reports, sid),
                        Rung(b.startups[sid].spent, b.startups[sid].cap))
  {
    if reports != [] {
      var front, last := reports[..|reports| - 1], reports[|reports| - 1];
      ThresholdsRise(b, front, sid);
      StepStands(AfterReports(b, front), last, sid, AllCrossed(b, front, sid),
                 Rung(b.startups[sid].spent, b.startups[sid].cap));
    }
  }

  lemma ClosedFromSecondRung(s: Startup)
    requires s.cap > 0.0
    ensures s.spent / s.cap >= 0.95 <==> Rung(s.spent, s.cap) >= 2
  {}

  lemma StandingIsHighest(ts: seq<Threshold>, start: nat)
    requires Rising(ts, start)
    ensures Standing(ts, start) >= 2 <==> start >= 2 || Warn95 in ts || Pause100 in ts
  {
    if ts != [] {
      assert ts[|ts| - 1] in ts;
    }
    if t :| t in ts && RungOf(t) >= 2 {
      var i :| 0 <= i < |ts| && ts[i] == t;
      assert RungOf(ts[i]) <= RungOf(ts[|ts| - 1]);
    }
  }

  /** The scheduler's gate is closed for a startup's agents exactly when the startup began at 95% of its cap or the
      warning at 95% or the pause has been reported. */
  lemma GateFollowsThresholds(b: Books, reports: seq<Report>, sid: StartupId, agents: AgentTable, agent: AgentId)
    requires sid in b.startups && b.startups[sid].cap > 0.0
    requires agent in agents && agents[agent].startup == sid
    ensures !Scheduler.WithinBudget(agents, AfterReports(b, reports).startups, agent) <==>
            b.startups[sid].spent / b.startups[sid].cap >= 0.95
            || Warn95 in AllCrossed(b, reports, sid) || Pause100 in AllCrossed(b, reports, sid)
  {
    var s0 := b.startups[sid];
    ThresholdsRise(b, reports, sid);
    StandingIsHighest(AllCrossed(b, reports, sid), Rung(s0.spent, s0.cap));
    ClosedFromSecondRung(s0);
    ClosedFromSecondRung(AfterReports(b, reports).startups[sid]);
  }

  /** With a cap that is not positive the gate never closes and nothing is ever reported. */
  lemma {:induction false} NoCapNoThreshold(b: Books, reports: seq<Report>, sid: StartupId, agents: AgentTable,
                                            agent: AgentId)
    requires sid in b.startups && b.startups[sid].cap <= 0.0
    requires agent in agents && agents[agent].startup == sid
    ensures AllCrossed(b, reports, sid) == []
    ensures Scheduler.WithinBudget(agents, AfterReports(b, reports).startups, agent)
  {
    SpendIsConserved(b, reports, sid);
    if reports != [] {
      NoCapNoThreshold(b, reports[..|reports| - 1], sid, agents, agent);
      SpendIsConserved(b, reports[..|reports| - 1], sid);
    }
  }
}
