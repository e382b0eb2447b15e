/** Every administrator step, whole: when it changes something, what it changes, and that nothing else does. */
module Effects {
  import opened Options
  import opened Calendar
  import opened Intervals
  import opened Metrics
  import opened Summary
  import opened Ledger
  import opened Invariants
  import opened Period
  import opened Runs
  import opened PunchEffects
  import opened RecordEffects

  /** What holds in every reachable state. */
  ghost predicate Sound(s: State) {
    Inv(s) && SidesOk(s.facts) && PeriodOk(s.facts)
  }

  /** Whether a request is carried out; otherwise it is refused. */
  ghost predicate Permitted(s: State, op: Op) {
    match op
    case Create(env, at, paired) => Creatable(s, env, at, paired)
    case Move(env, id, at) => Movable(s, env, id, at)
    case Delete(env, id, pairedId) => Deletable(s, env, id, pairedId)
    case Breaks(env, m, confirmed) => BreaksAddable(s, env, m, confirmed)
    case PutPlan(env, day, arrival, departure, status, confirmed) =>
      Plannable(s, env, day, arrival, departure, status, confirmed)
    case PutStatus(env, day, status, confirmed) => StatusAllowed(s, env, day, status, confirmed)
    case Update(request) => Updatable(s, request)
    case SetLock(kind, m, locked) => MonthInside(s.facts, m)
  }

  /** Facts and cache change; locks, shift-plan selections and reminders do not. */
  ghost predicate FactsChange(s: State, t: State) {
    t == s.(facts := t.facts, nextId := t.nextId, table := t.table)
  }

  ghost predicate Effect(s: State, op: Op, t: State) {
    match op
    case Create(env, at, paired) =>
      FactsChange(s, t) && (paired.Some? ==> at <= paired.value) && Created(s, t.facts, t.nextId, at, paired)
    case Move(env, id, at) => FactsChange(s, t) && t.nextId == s.nextId && Moved(s.facts, t.facts, id, at)
    case Delete(env, id, pairedId) =>
      FactsChange(s, t) && t.nextId == s.nextId && Deleted(s.facts, t.facts, Ids(id, pairedId))
    case Breaks(env, m, confirmed) => FactsChange(s, t) && BreaksStored(s, t.facts, t.nextId, m)
    case PutPlan(env, day, arrival, departure, status, confirmed) =>
      FactsChange(s, t) && t.nextId == s.nextId && PlanWritten(s.facts, t.facts, day, arrival, departure, status)
    case PutStatus(env, day, status, confirmed) =>
      FactsChange(s, t) && t.nextId == s.nextId && StatusSet(s.facts, t.facts, day, status)
    case Update(request) => UpdatedTo(s, request, t)
    case SetLock(kind, m, locked) => LockChanged(s, t, kind, m, locked)
  }

  lemma {:induction false} OutcomeExactly(s: State, op: Op)
    requires Sound(s) && !op.Update? && !op.SetLock?
    ensures OutcomeOf(s, op).Commit? <==> Permitted(s, op)
    ensures OutcomeOf(s, op).Commit? ==>
      forall table :: Effect(s, op, s.(facts := OutcomeOf(s, op).facts, nextId := OutcomeOf(s, op).nextId, table := table))
  {
    hide CreateEvent, MoveEvent, DeleteEvent, AddBreaks, UpsertPlan, UpsertDayStatus, Movable, Deletable, BreaksAddable,
      Plannable, StatusAllowed, Created, Moved, Deleted, BreaksStored, PlanWritten, StatusSet, SidesOk, Exclusive, Contained,
      CacheExact, Distinct, BreaksWith, HasStatus, Employed, InPeriod, MonthLockedAt, Free, DayOf;
    match op
    case Create(env, at, paired) => CreateExactly(s, env, at, paired);
    case Move(env, id, at) => MoveExactly(s, env, id, at);
    case Delete(env, id, pairedId) => DeleteExactly(s, env, id, pairedId);
    case Breaks(env, m, confirmed) => BreaksExactly(s, env, m, confirmed);
    case PutPlan(env, day, arrival, departure, status, confirmed) =>
      PlanExactly(s, env, day, arrival, departure, status, confirmed);
    case PutStatus(env, day, status, confirmed) => StatusExactly(s, env, day, status, confirmed);
  }

  /** Updating carries the effect over to any table. */
  lemma {:induction false} AnyTable(s: State, r: Request, t: State, table: Table)
    requires UpdatedTo(s, r, t)
    ensures UpdatedTo(s, r, t.(table := table))
  {
    hide InPeriod, MonthInside, ProfileStored, DayOf;
  }

  /** Every step does exactly what its request says when it is permitted, and nothing at all otherwise. */
  lemma {:induction false} StepExactly(s: State, op: Op, t: State)
    requires Sound(s) && Step(s, op, t)
    ensures if Permitted(s, op) then Effect(s, op, t) else t == s
  {
    hide OutcomeOf, UpdateEmployment, AfterLock, Synced, CacheExact, Exclusive, Contained, Distinct, SidesOk, Updatable,
      UpdatedTo, LockChanged, MonthInside, Creatable, Movable, Deletable, BreaksAddable, Plannable, StatusAllowed;
    match op
    case Update(request) =>
      UpdateExactly(s, request);
      if UpdateEmployment(s, request).Updated? {
        AnyTable(s, request, UpdateEmployment(s, request).state, t.table);
      }
    case SetLock(kind, m, locked) => LockExactly(s, kind, m, locked);
    case _ => CommittedExactly(s, op, t);
  }

  lemma {:induction false} CommittedExactly(s: State, op: Op, t: State)
    requires Sound(s) && !op.Update? && !op.SetLock? && Applies(s, OutcomeOf(s, op), t)
    ensures if Permitted(s, op) then Effect(s, op, t) else t == s
  {
    hide OutcomeOf, Synced, Sound, Permitted, Effect;
    OutcomeExactly(s, op);
    var o := OutcomeOf(s, op);
    if o.Commit? {
      assert Effect(s, op, s.(facts := o.facts, nextId := o.nextId, table := t.table));
    }
  }

  // ---- what holds in every reachable state ----

  lemma {:induction false} SameRecordsSides(f: Facts, g: Facts)
    requires SidesOk(f)
    requires forall day :: Get(g.attendance, day) == Get(f.attendance, day) || Get(g.attendance, day) == None
    requires forall day :: Get(g.plans, day) == Get(f.plans, day) || Get(g.plans, day) == None
    ensures SidesOk(g)
  {
    forall day | AttendanceStatus(g, day).Some? ensures AttendanceStatus(f, day) == AttendanceStatus(g, day) {
      assert Get(g.attendance, day) == Get(f.attendance, day);
    }
    forall day | day in g.plans ensures day in f.plans && f.plans[day] == g.plans[day] {
      assert Get(g.plans, day) == Get(f.plans, day);
    }
  }

  lemma {:induction false} PlanKeepsSides(f: Facts, g: Facts, day: nat, arrival: Option<MinuteOfDay>,
                                          departure: Option<MinuteOfDay>, status: Option<Status>)
    requires SidesOk(f) && PlanWritten(f, g, day, arrival, departure, status)
    requires status.Some? ==> status == Some(Vacation) || status == Some(DayOff)
    ensures SidesOk(g)
  {
    assert forall d :: AttendanceStatus(g, d) == AttendanceStatus(f, d);
    forall d | d in g.plans && g.plans[d].status.Some?
      ensures g.plans[d].status == Some(Vacation) || g.plans[d].status == Some(DayOff)
    {
      assert Get(g.plans, d) == Some(g.plans[d]);
      if d != day { assert Get(f.plans, d) == Some(g.plans[d]); }
    }
  }

  lemma {:induction false} OwnSides(f: Facts, g: Facts, day: nat, status: Option<Status>)
    requires StatusSet(f, g, day, status)
    ensures AttendanceStatus(g, day).Some? ==>
      AttendanceStatus(g, day) == Some(Sickness) || AttendanceStatus(g, day) == Some(Paragraph)
    ensures day in g.plans && g.plans[day].status.Some? ==>
      g.plans[day].status == Some(Vacation) || g.plans[day].status == Some(DayOff)
  {
    hide DayOf, DayTimes, SameDay;
    if status.Some? {
      assert status.value.Vacation? || status.value.DayOff? || status.value.Sickness? || status.value.Paragraph?;
    }
  }

  lemma {:induction false} StatusKeepsSides(f: Facts, g: Facts, day: nat, status: Option<Status>)
    requires SidesOk(f) && StatusSet(f, g, day, status)
    ensures SidesOk(g)
  {
    hide DayOf, DayTimes;
    OwnSides(f, g, day, status);
    forall d | d != day
      ensures AttendanceStatus(g, d) == AttendanceStatus(f, d)
      ensures d in g.plans ==> d in f.plans && f.plans[d] == g.plans[d]
    {
      assert SameDay(f, g, d);
    }
  }

  lemma {:induction false} UpdateKeepsSound(s: State, r: Request, t: State)
    requires SidesOk(s.facts) && Updatable(s, r) && UpdatedTo(s, r, t)
    ensures SidesOk(t.facts) && PeriodOk(t.facts)
  {
    hide SidesOk, InPeriod, MonthInside, ProfileStored, DayOf, NothingOutside, ProfileAccepted;
    SameRecordsSides(s.facts, t.facts);
  }

  lemma {:induction false} PunchesKeepSides(f: Facts, g: Facts)
    requires SidesOk(f) && PeriodOk(f) && g == f.(events := g.events)
    ensures SidesOk(g) && PeriodOk(g)
  {
    SameRecordsSides(f, g);
  }

  /** Statuses stay on their sides and the period stays in order through every step. */
  lemma {:induction false} StepKeepsSound(s: State, op: Op, t: State)
    requires Sound(s) && Step(s, op, t)
    ensures Sound(t)
  {
    hide Inv, SidesOk, Step, Movable, Creatable, Deletable, BreaksAddable, StatusAllowed, Updatable, UpdatedTo, StatusSet,
      PlanWritten, MonthInside, BreaksWith, Ids, Employed, InPeriod, MonthOf, HasStatus, Attended;
    StepKeepsInv(s, op, t);
    StepExactly(s, op, t);
    if Permitted(s, op) {
      match op
      case PutPlan(env, day, arrival, departure, status, confirmed) =>
        PlanKeepsSides(s.facts, t.facts, day, arrival, departure, status);
        PlanKeepsPeriod(s.facts, t.facts, day, arrival, departure, status);
      case PutStatus(env, day, status, confirmed) =>
        StatusKeepsSides(s.facts, t.facts, day, status);
        StatusKeepsPeriod(s.facts, t.facts, day, status);
      case Update(request) => UpdateKeepsSound(s, request, t);
      case SetLock(kind, m, locked) => assert t.facts == s.facts;
      case _ => PunchesKeepSides(s.facts, t.facts);
    }
  }

  lemma {:induction false} PlanKeepsPeriod(f: Facts, g: Facts, day: nat, arrival: Option<MinuteOfDay>,
                                           departure: Option<MinuteOfDay>, status: Option<Status>)
    requires PeriodOk(f) && PlanWritten(f, g, day, arrival, departure, status)
    ensures PeriodOk(g)
  {
  }

  lemma {:induction false} StatusKeepsPeriod(f: Facts, g: Facts, day: nat, status: Option<Status>)
    requires PeriodOk(f) && StatusSet(f, g, day, status)
    ensures PeriodOk(g)
  {
    hide DayOf, DayTimes, SameDay;
  }

  /** A new employment, whose period was checked when it was created, is sound. */
  lemma {:induction false} InitialSound(s: State)
    requires Initial(s) && PeriodOk(s.facts)
    ensures Sound(s)
  {
    hide Inv;
    InitialInv(s);
  }

  /** Along every run from a new employment, each step did exactly what was asked if it was permitted then,
      and nothing otherwise. */
  lemma {:induction false} RunExactly(states: seq<State>, ops: seq<Op>)
    requires Run(states, ops) && Initial(states[0]) && PeriodOk(states[0].facts)
    ensures forall i :: 0 <= i < |states| ==> Sound(states[i])
    ensures forall i :: 0 <= i < |ops| ==>
      if Permitted(states[i], ops[i]) then Effect(states[i], ops[i], states[i + 1]) else states[i + 1] == states[i]
    decreases |ops|
  {
    hide Sound, Step, Initial, Permitted, Effect, PeriodOk;
    if ops == [] {
      InitialSound(states[0]);
    } else {
      var n := |ops| - 1;
      var earlier, done := states[..n + 1], ops[..n];
      RunExactly(earlier, done);
      assert earlier[n] == states[n];
      StepKeepsSound(states[n], ops[n], states[n + 1]);
      StepExactly(states[n], ops[n], states[n + 1]);
      forall i | 0 <= i < |states| ensures Sound(states[i]) {
        if i <= n { assert earlier[i] == states[i]; }
      }
      forall i | 0 <= i < |ops|
        ensures if Permitted(states[i], ops[i]) then Effect(states[i], ops[i], states[i + 1]) else states[i + 1] == states[i]
      {
        if i < n { assert earlier[i] == states[i] && earlier[i + 1] == states[i + 1] && done[i] == ops[i]; }
      }
    }
  }
}
