/** The attendance reminder scheduler over repeated runs (app/services/attendance_reminders.py).
    A run reads the stored facts, sends what is due and records each reminder right after sending it;
    the sender may fail, which ends the run. */
module Reminders {
  import opened Options
  import opened Breaks
  import opened Calendar
  import opened Summary

  const MAX_ATTEMPTS: nat := 5
  const INTERVAL_MINUTES: nat := 10

  datatype Kind = MissingArrival | MissingDepartureAfterShift | MissingDeparturePreviousDay

  datatype Sent = Sent(employment: nat, day: int, kind: Kind, sequenceNo: nat)

  /** A reminder the current run has found to have `due` attempts due. */
  datatype Task = Task(employment: nat, day: int, kind: Kind, due: nat)

  /** What one run sees: the clock, the eligible employments, their plans and all punches. */
  datatype View = View(
    now: nat,
    employments: seq<nat>,
    plans: map<(nat, nat), Plan>,
    punches: seq<(nat, nat)>)

  /** `_scheduled_attempt_count`. */
  function Due(now: nat, firstAt: nat): nat {
    if now < firstAt then 0
    else
      var attempts := (now - firstAt) / INTERVAL_MINUTES + 1;
      if attempts < MAX_ATTEMPTS then attempts else MAX_ATTEMPTS
  }

  /** Attempt `i` is due from ten minutes after attempt `i - 1` on, and there is no sixth one. */
  lemma {:induction false} AttemptTimes(now: nat, firstAt: nat, i: nat)
    requires 1 <= i
    ensures i <= Due(now, firstAt) <==> i <= MAX_ATTEMPTS && firstAt + INTERVAL_MINUTES * (i - 1) <= now
  {
  }

  // ---- punch counts ----

  function CountOn(punches: seq<(nat, nat)>, employment: nat, day: nat): nat {
    if punches == [] then 0
    else
      var last := punches[|punches| - 1];
      CountOn(punches[..|punches| - 1], employment, day) + if last.0 == employment && DayOf(last.1) == day then 1 else 0
  }

  function CountIn(counts: map<(nat, nat), nat>, employment: nat, day: nat): nat {
    if (employment, day) in counts then counts[(employment, day)] else 0
  }

  /** The per-day tally over the punches of yesterday and today. */
  method EventCounts(punches: seq<(nat, nat)>, today: nat) returns (counts: map<(nat, nat), nat>)
    ensures forall e: nat, day: nat :: day == today || day + 1 == today ==> CountIn(counts, e, day) == CountOn(punches, e, day)
  {
    hide DayOf;
    counts := map[];
    for i := 0 to |punches|
      invariant forall e: nat, day: nat :: day == today || day + 1 == today ==> CountIn(counts, e, day) == CountOn(punches[..i], e, day)
    {
      assert punches[..i + 1][..i] == punches[..i];
      var day := DayOf(punches[i].1);
      if day == today || day + 1 == today {
        counts := counts[(punches[i].0, day) := CountIn(counts, punches[i].0, day) + 1];
      }
    }
    assert punches[..|punches|] == punches;
  }

  // ---- what is due in a run ----

  function ArrivalDue(v: View, e: nat): nat {
    var today := DayOf(v.now);
    if (e, today) in v.plans && v.plans[(e, today)].arrival.Some? && CountOn(v.punches, e, today) == 0
    then Due(v.now, today * MINUTES_PER_DAY + v.plans[(e, today)].arrival.value + 5) else 0
  }

  function DepartureDue(v: View, e: nat): nat {
    var today := DayOf(v.now);
    if (e, today) in v.plans && v.plans[(e, today)].departure.Some? && CountOn(v.punches, e, today) % 2 == 1
    then Due(v.now, today * MINUTES_PER_DAY + v.plans[(e, today)].departure.value + 120) else 0
  }

  function PreviousDayDue(v: View, e: nat): nat {
    var today := DayOf(v.now);
    if today > 0 && CountOn(v.punches, e, today - 1) % 2 == 1 then Due(v.now, today * MINUTES_PER_DAY + 480) else 0
  }

  function TasksOf(v: View, e: nat): seq<Task> {
    var today := DayOf(v.now);
    [Task(e, today, MissingArrival, ArrivalDue(v, e)),
     Task(e, today, MissingDepartureAfterShift, DepartureDue(v, e)),
     Task(e, today - 1, MissingDeparturePreviousDay, PreviousDayDue(v, e))]
  }

  function RunTasks(v: View, employments: seq<nat>): seq<Task> {
    if employments == [] then [] else TasksOf(v, employments[0]) + RunTasks(v, employments[1..])
  }

  /** Attempts `from` to `due` of a task. */
  function Attempts(t: Task, from: nat): seq<Sent>
    decreases t.due - from + 1
  {
    if t.due < from then [] else [Sent(t.employment, t.day, t.kind, from)] + Attempts(t, from + 1)
  }

  function AllAttempts(tasks: seq<Task>): seq<Sent> {
    if tasks == [] then [] else Attempts(tasks[0], 1) + AllAttempts(tasks[1..])
  }

  /** The attempts not yet sent, each counted as sent from then on. */
  function Fresh(attempts: seq<Sent>, sent: set<Sent>): seq<Sent> {
    if attempts == [] then []
    else if attempts[0] in sent then Fresh(attempts[1..], sent)
    else [attempts[0]] + Fresh(attempts[1..], sent + {attempts[0]})
  }

  function Elements(s: seq<Sent>): set<Sent> {
    set x | x in s
  }

  /** Everything a run would send were the sender not to fail. */
  function RunFresh(v: View, sent: set<Sent>): seq<Sent> {
    Fresh(AllAttempts(RunTasks(v, v.employments)), sent)
  }

  lemma {:induction false} FreshConcat(a: seq<Sent>, b: seq<Sent>, sent: set<Sent>)
    ensures Fresh(a + b, sent) == Fresh(a, sent) + Fresh(b, sent + Elements(Fresh(a, sent)))
  {
    if a == [] {
      assert a + b == b;
      assert sent + Elements([]) == sent;
    } else {
      assert (a + b)[1..] == a[1..] + b;
      if a[0] in sent {
        FreshConcat(a[1..], b, sent);
      } else {
        var rest := Fresh(a[1..], sent + {a[0]});
        FreshConcat(a[1..], b, sent + {a[0]});
        assert sent + {a[0]} + Elements(rest) == sent + Elements([a[0]] + rest);
      }
    }
  }

  lemma {:induction false} FreshSameSent(a: seq<Sent>, s: set<Sent>, t: set<Sent>)
    requires forall x :: x in a ==> (x in s <==> x in t)
    ensures Fresh(a, s) == Fresh(a, t)
  {
    if a != [] {
      if a[0] in s {
        FreshSameSent(a[1..], s, t);
      } else {
        FreshSameSent(a[1..], s + {a[0]}, t + {a[0]});
      }
    }
  }

  // ---- the scheduler ----

  /** One more pending attempt after `from`. */
  lemma {:induction false} AttemptsNext(t: Task, from: nat, sent: set<Sent>)
    requires from <= t.due
    ensures var key := Sent(t.employment, t.day, t.kind, from);
      Fresh(Attempts(t, from), sent)
        == if key in sent then Fresh(Attempts(t, from + 1), sent)
           else [key] + Fresh(Attempts(t, from + 1), sent + {key})
  {
    var key := Sent(t.employment, t.day, t.kind, from);
    assert Attempts(t, from)[1..] == Attempts(t, from + 1);
  }

  /** Where a run stands: the table, the mails sent, the keys it treats as sent, and how many more
      mails the sender accepts. */
  datatype Progress = Progress(recorded: set<Sent>, outbox: seq<Sent>, already: set<Sent>, budget: nat)

  /** From `p` to `q` the pending mails are sent in order until the sender fails. */
  ghost predicate Sends(p: Progress, q: Progress, completed: bool, pending: seq<Sent>) {
    var n := Min(p.budget, |pending|);
    && q == Progress(p.recorded + Elements(pending[..n]), p.outbox + pending[..n],
                     p.already + Elements(pending[..n]), p.budget - n)
    && completed == (n == |pending|)
  }

  ghost predicate SendsAttempts(p: Progress, q: Progress, completed: bool, attempts: seq<Sent>) {
    Sends(p, q, completed, Fresh(attempts, p.already))
  }

  lemma {:induction false} SendsNothing(p: Progress)
    ensures SendsAttempts(p, p, true, [])
  {
    assert Progress(p.recorded + {}, p.outbox + [], p.already + {}, p.budget) == p;
  }

  lemma {:induction false} ElementsConcat(a: seq<Sent>, b: seq<Sent>)
    ensures Elements(a + b) == Elements(a) + Elements(b)
  {
  }

  lemma {:induction false} ElementsGrow(s: seq<Sent>, x: Sent)
    ensures Elements([]) == {} && Elements(s + [x]) == Elements(s) + {x}
  {
  }

  lemma {:induction false} SendsThen(p: Progress, q: Progress, r: Progress, completed: bool, first: seq<Sent>, second: seq<Sent>)
    requires SendsAttempts(p, q, true, first) && SendsAttempts(q, r, completed, second)
    ensures SendsAttempts(p, r, completed, first + second)
  {
    hide Fresh, Elements;
    FreshConcat(first, second, p.already);
    var a, b := Fresh(first, p.already), Fresh(second, q.already);
    assert a[..|a|] == a;
    var n := Min(q.budget, |b|);
    assert (a + b)[..|a| + n] == a + b[..n];
    ElementsConcat(a, b[..n]);
    assert p.outbox + (a + b[..n]) == p.outbox + a + b[..n];
  }

  lemma {:induction false} SendsStop(p: Progress, q: Progress, first: seq<Sent>, second: seq<Sent>)
    requires SendsAttempts(p, q, false, first)
    ensures SendsAttempts(p, q, false, first + second)
  {
    hide Fresh, Elements;
    FreshConcat(first, second, p.already);
    var a := Fresh(first, p.already);
    assert forall b: seq<Sent> :: (a + b)[..p.budget] == a[..p.budget];
  }

  class Scheduler {
    /** Rows of the reminder table. */
    var recorded: set<Sent>
    /** Mails handed to the sender, oldest first. */
    var outbox: seq<Sent>

    constructor ()
      ensures recorded == {} && outbox == []
    {
      recorded, outbox := {}, [];
    }

    /** One of the three send loops; `budget` is how many more mails the sender accepts. */
    method SendDue(t: Task, already: set<Sent>, budget: nat) returns (now: set<Sent>, left: nat, completed: bool)
      modifies this
      ensures SendsAttempts(Progress(old(recorded), old(outbox), already, budget),
                            Progress(recorded, outbox, now, left), completed, Attempts(t, 1))
    {
      hide Fresh, Attempts, Elements;
      ElementsGrow([], Sent(t.employment, t.day, t.kind, 0));
      now, left, completed := already, budget, true;
      var sequenceNo := 1;
      ghost var done: seq<Sent> := [];
      while sequenceNo <= t.due
        invariant 1 <= sequenceNo <= t.due + 1
        invariant Fresh(Attempts(t, 1), already) == done + Fresh(Attempts(t, sequenceNo), now)
        invariant outbox == old(outbox) + done && recorded == old(recorded) + Elements(done)
        invariant now == already + Elements(done) && left + |done| == budget
        decreases t.due + 1 - sequenceNo
      {
        var key := Sent(t.employment, t.day, t.kind, sequenceNo);
        AttemptsNext(t, sequenceNo, now);
        if key !in now {
          if left == 0 {
            assert Fresh(Attempts(t, 1), already)[..|done|] == done;
            return now, left, false;
          }
          outbox := outbox + [key];
          recorded := recorded + {key};
          now := now + {key};
          left := left - 1;
          ElementsGrow(done, key);
          done := done + [key];
        }
        sequenceNo := sequenceNo + 1;
      }
      NoAttemptsLeft(t, sequenceNo, now);
      assert done[..|done|] == done;
    }

    /** Planned to have arrived, but no punch today. */
    method RemindArrival(v: View, e: nat, counts: map<(nat, nat), nat>, already: set<Sent>, budget: nat)
      returns (now: set<Sent>, left: nat, completed: bool)
      requires Tallied(v, e, counts)
      modifies this
      ensures SendsAttempts(Progress(old(recorded), old(outbox), already, budget),
                            Progress(recorded, outbox, now, left), completed, Attempts(TasksOf(v, e)[0], 1))
    {
      hide SendsAttempts, DayOf, Due, CountOn, CountIn;
      now, left, completed := already, budget, true;
      var today := DayOf(v.now);
      if (e, today) in v.plans && v.plans[(e, today)].arrival.Some? && CountIn(counts, e, today) == 0 {
        var due := Due(v.now, today * MINUTES_PER_DAY + v.plans[(e, today)].arrival.value + 5);
        now, left, completed := SendDue(Task(e, today, MissingArrival, due), now, left);
      } else {
        SendsNothing(Progress(recorded, outbox, already, budget));
      }
    }

    /** Planned to have left two hours ago, but still punched in. */
    method RemindDeparture(v: View, e: nat, counts: map<(nat, nat), nat>, already: set<Sent>, budget: nat)
      returns (now: set<Sent>, left: nat, completed: bool)
      requires Tallied(v, e, counts)
      modifies this
      ensures SendsAttempts(Progress(old(recorded), old(outbox), already, budget),
                            Progress(recorded, outbox, now, left), completed, Attempts(TasksOf(v, e)[1], 1))
    {
      hide SendsAttempts, DayOf, Due, CountOn, CountIn;
      now, left, completed := already, budget, true;
      var today := DayOf(v.now);
      if (e, today) in v.plans && v.plans[(e, today)].departure.Some? && CountIn(counts, e, today) % 2 == 1 {
        var due := Due(v.now, today * MINUTES_PER_DAY + v.plans[(e, today)].departure.value + 120);
        now, left, completed := SendDue(Task(e, today, MissingDepartureAfterShift, due), now, left);
      } else {
        SendsNothing(Progress(recorded, outbox, already, budget));
      }
    }

    /** Yesterday ended punched in; reminded from eight o'clock on. */
    method RemindPreviousDay(v: View, e: nat, counts: map<(nat, nat), nat>, already: set<Sent>, budget: nat)
      returns (now: set<Sent>, left: nat, completed: bool)
      requires Tallied(v, e, counts)
      modifies this
      ensures SendsAttempts(Progress(old(recorded), old(outbox), already, budget),
                            Progress(recorded, outbox, now, left), completed, Attempts(TasksOf(v, e)[2], 1))
    {
      hide SendsAttempts, DayOf, Due, CountOn, CountIn;
      now, left, completed := already, budget, true;
      var today := DayOf(v.now);
      if today > 0 && CountIn(counts, e, today - 1) % 2 == 1 {
        var due := Due(v.now, today * MINUTES_PER_DAY + 480);
        now, left, completed := SendDue(Task(e, today - 1, MissingDeparturePreviousDay, due), now, left);
      } else {
        SendsNothing(Progress(recorded, outbox, already, budget));
      }
    }

    /** The scheduler's work for one employment. */
    method Remind(v: View, e: nat, counts: map<(nat, nat), nat>, already: set<Sent>, budget: nat)
      returns (now: set<Sent>, left: nat, completed: bool)
      requires Tallied(v, e, counts)
      modifies this
      ensures SendsAttempts(Progress(old(recorded), old(outbox), already, budget),
                            Progress(recorded, outbox, now, left), completed, AllAttempts(TasksOf(v, e)))
    {
      hide SendsAttempts, Tallied, Attempts, ArrivalDue, DepartureDue, PreviousDayDue, DayOf;
      ghost var start := Progress(recorded, outbox, already, budget);
      ghost var a, b, c := Attempts(TasksOf(v, e)[0], 1), Attempts(TasksOf(v, e)[1], 1), Attempts(TasksOf(v, e)[2], 1);
      ThreeTasks(v, e);
      now, left, completed := RemindArrival(v, e, counts, already, budget);
      ghost var first := Progress(recorded, outbox, now, left);
      if !completed {
        SendsStop(start, first, a, b + c);
        return;
      }
      now, left, completed := RemindDeparture(v, e, counts, now, left);
      ghost var second := Progress(recorded, outbox, now, left);
      SendsThen(start, first, second, completed, a, b);
      if !completed {
        SendsStop(start, second, a + b, c);
        return;
      }
      now, left, completed := RemindPreviousDay(v, e, counts, now, left);
      SendsThen(start, second, Progress(recorded, outbox, now, left), completed, a + b, c);
    }

    /** `process_attendance_reminders`: one run over all eligible employments. Only the keys of today and
        yesterday are loaded from the table; no others are ever attempted. The mails sent are the run's
        pending ones, in order, up to the first one the sender fails on. */
    method Process(v: View, budget: nat) returns (sentCount: nat, completed: bool)
      modifies this
      ensures var pending := RunFresh(v, old(recorded));
        var n := Min(budget, |pending|);
        && outbox == old(outbox) + pending[..n] && recorded == old(recorded) + Elements(pending[..n])
        && completed == (n == |pending|) && sentCount == n
      ensures forall rounds :: old(outbox) == OutboxAfter(rounds) && old(recorded) == Elements(old(outbox)) ==>
        outbox == OutboxAfter(rounds + [Round(v, budget)]) && recorded == Elements(outbox)
    {
      hide SendsAttempts, TasksOf, AllAttempts, DayOf, CountIn, CountOn, RunTasks;
      var today: int := DayOf(v.now);
      var counts := EventCounts(v.punches, today);
      var already := set x | x in recorded && (x.day == today || x.day == today - 1);
      var left := budget;
      completed, sentCount := true, 0;
      ghost var start := Progress(recorded, outbox, already, budget);
      ghost var attempts := AllAttempts(RunTasks(v, v.employments));
      ghost var done: seq<Sent> := [];
      SendsNothing(start);
      assert v.employments[0..] == v.employments && [] + attempts == attempts;
      for i := 0 to |v.employments|
        invariant attempts == done + AllAttempts(RunTasks(v, v.employments[i..]))
        invariant SendsAttempts(start, Progress(recorded, outbox, already, left), true, done)
      {
        ghost var before := Progress(recorded, outbox, already, left);
        ghost var mine, rest := AllAttempts(TasksOf(v, v.employments[i])), AllAttempts(RunTasks(v, v.employments[i + 1..]));
        FirstEmployment(v, v.employments[i..]);
        assert v.employments[i..][1..] == v.employments[i + 1..];
        assert done + (mine + rest) == done + mine + rest;
        already, left, completed := Remind(v, v.employments[i], counts, already, left);
        ghost var after := Progress(recorded, outbox, already, left);
        SendsThen(start, before, after, completed, done, mine);
        done := done + mine;
        if !completed {
          SendsStop(start, after, done, rest);
          RunEnds(v, start, after, false);
          return budget - left, false;
        }
      }
      NoEmployments(v, v.employments[|v.employments|..]);
      assert done + [] == done;
      RunEnds(v, start, Progress(recorded, outbox, already, left), true);
      sentCount := budget - left;
    }
  }

  /** The tally agrees with the punches of one employment on today and yesterday. */
  ghost predicate Tallied(v: View, e: nat, counts: map<(nat, nat), nat>) {
    forall day: nat :: day == DayOf(v.now) || day + 1 == DayOf(v.now) ==> CountIn(counts, e, day) == CountOn(v.punches, e, day)
  }

  lemma {:induction false} AllAttemptsConcat(a: seq<Task>, b: seq<Task>)
    ensures AllAttempts(a + b) == AllAttempts(a) + AllAttempts(b)
  {
    hide Attempts;
    if a == [] {
      assert a + b == b;
    } else {
      assert (a + b)[1..] == a[1..] + b;
      AllAttemptsConcat(a[1..], b);
    }
  }

  lemma {:induction false} FirstEmployment(v: View, employments: seq<nat>)
    requires employments != []
    ensures AllAttempts(RunTasks(v, employments))
         == AllAttempts(TasksOf(v, employments[0])) + AllAttempts(RunTasks(v, employments[1..]))
  {
    hide TasksOf, AllAttempts;
    AllAttemptsConcat(TasksOf(v, employments[0]), RunTasks(v, employments[1..]));
  }

  lemma {:induction false} NoEmployments(v: View, employments: seq<nat>)
    requires employments == []
    ensures AllAttempts(RunTasks(v, employments)) == []
  {
  }

  lemma {:induction false} AttemptElements(t: Task, from: nat, x: Sent)
    ensures x in Attempts(t, from)
      <==> x == Sent(t.employment, t.day, t.kind, x.sequenceNo) && from <= x.sequenceNo <= t.due
    decreases t.due - from + 1
  {
    if from <= t.due {
      AttemptElements(t, from + 1, x);
    }
  }

  /** What is attempted: the due sequence numbers of the tasks. */
  lemma {:induction false} AllAttemptElements(tasks: seq<Task>, x: Sent)
    ensures x in AllAttempts(tasks) <==>
      exists i :: 0 <= i < |tasks| && x == Sent(tasks[i].employment, tasks[i].day, tasks[i].kind, x.sequenceNo)
                  && 1 <= x.sequenceNo <= tasks[i].due
  {
    hide Attempts;
    if tasks != [] {
      AttemptElements(tasks[0], 1, x);
      AllAttemptElements(tasks[1..], x);
      if i :| 0 <= i < |tasks| && x == Sent(tasks[i].employment, tasks[i].day, tasks[i].kind, x.sequenceNo)
                  && 1 <= x.sequenceNo <= tasks[i].due {
        if i > 0 {
          assert tasks[1..][i - 1] == tasks[i];
        }
      }
      if x in AllAttempts(tasks[1..]) {
        var i :| 0 <= i < |tasks[1..]|
          && x == Sent(tasks[1..][i].employment, tasks[1..][i].day, tasks[1..][i].kind, x.sequenceNo)
          && 1 <= x.sequenceNo <= tasks[1..][i].due;
        assert tasks[i + 1] == tasks[1..][i];
      }
    }
  }

  lemma {:induction false} RunTaskDays(v: View, employments: seq<nat>)
    ensures forall i :: 0 <= i < |RunTasks(v, employments)| ==>
      RunTasks(v, employments)[i].day == DayOf(v.now) || RunTasks(v, employments)[i].day == DayOf(v.now) - 1
  {
    hide DayOf, ArrivalDue, DepartureDue, PreviousDayDue;
    if employments != [] {
      RunTaskDays(v, employments[1..]);
    }
  }

  /** The whole run, judged against the whole table instead of the loaded part. */
  lemma {:induction false} RunEnds(v: View, start: Progress, end: Progress, completed: bool)
    requires start.already == set x | x in start.recorded && (x.day == DayOf(v.now) || x.day == DayOf(v.now) - 1)
    requires SendsAttempts(start, end, completed, AllAttempts(RunTasks(v, v.employments)))
    ensures Sends(start, end, completed, RunFresh(v, start.recorded))
  {
    hide DayOf, Fresh, AllAttempts, RunTasks, Sends;
    var tasks := RunTasks(v, v.employments);
    RunTaskDays(v, v.employments);
    forall x | x in AllAttempts(tasks) ensures x in start.already <==> x in start.recorded {
      AllAttemptElements(tasks, x);
    }
    FreshSameSent(AllAttempts(tasks), start.already, start.recorded);
  }

  lemma {:induction false} ThreeTasks(v: View, e: nat)
    ensures var t := TasksOf(v, e);
      AllAttempts(t) == Attempts(t[0], 1) + (Attempts(t[1], 1) + Attempts(t[2], 1))
    ensures var t := TasksOf(v, e);
      AllAttempts(t) == Attempts(t[0], 1) + Attempts(t[1], 1) + Attempts(t[2], 1)
  {
    hide Attempts, ArrivalDue, DepartureDue, PreviousDayDue, DayOf;
    var t := TasksOf(v, e);
    assert t[1..] == [t[1], t[2]] && t[1..][1..] == [t[2]] && t[1..][1..][1..] == [];
    assert AllAttempts(t[1..][1..]) == Attempts(t[2], 1) + [];
  }

  lemma {:induction false} NoAttemptsLeft(t: Task, from: nat, sent: set<Sent>)
    requires t.due < from
    ensures Fresh(Attempts(t, from), sent) == []
  {
  }

  // ---- repeated runs ----

  /** How many attempts of one reminder a run finds due: zero unless its condition holds. */
  function DueFor(v: View, e: nat, day: int, kind: Kind): nat {
    if e !in v.employments then 0
    else
      match kind
      case MissingArrival => if day == DayOf(v.now) then ArrivalDue(v, e) else 0
      case MissingDepartureAfterShift => if day == DayOf(v.now) then DepartureDue(v, e) else 0
      case MissingDeparturePreviousDay => if day == DayOf(v.now) - 1 then PreviousDayDue(v, e) else 0
  }

  /** One scheduler run: what it saw, and how many mails the sender accepted before failing. */
  datatype Round = Round(view: View, budget: nat)

  function Pending(rounds: seq<Round>): seq<Sent>
    requires rounds != []
    decreases |rounds|, 0
  {
    var n := |rounds| - 1;
    RunFresh(rounds[n].view, Elements(OutboxAfter(rounds[..n])))
  }

  /** All mails sent over a sequence of runs. */
  function OutboxAfter(rounds: seq<Round>): seq<Sent>
    decreases |rounds|, 1
  {
    if rounds == [] then []
    else OutboxAfter(rounds[..|rounds| - 1]) + Pending(rounds)[..Min(rounds[|rounds| - 1].budget, |Pending(rounds)|)]
  }

  /** The sender did not fail in the last run. */
  predicate Completed(rounds: seq<Round>)
    requires rounds != []
  {
    |Pending(rounds)| <= rounds[|rounds| - 1].budget
  }

  lemma {:induction false} FreshElements(attempts: seq<Sent>, sent: set<Sent>, x: Sent)
    ensures x in Fresh(attempts, sent) <==> x in attempts && x !in sent
  {
    if attempts != [] {
      FreshElements(attempts[1..], if attempts[0] in sent then sent else sent + {attempts[0]}, x);
    }
  }

  ghost predicate NoRepeats(s: seq<Sent>) {
    forall i, j :: 0 <= i < j < |s| ==> s[i] != s[j]
  }

  lemma {:induction false} FreshNoRepeats(attempts: seq<Sent>, sent: set<Sent>)
    ensures NoRepeats(Fresh(attempts, sent))
  {
    if attempts != [] {
      if attempts[0] in sent {
        FreshNoRepeats(attempts[1..], sent);
      } else {
        var rest := Fresh(attempts[1..], sent + {attempts[0]});
        FreshNoRepeats(attempts[1..], sent + {attempts[0]});
        FreshElements(attempts[1..], sent + {attempts[0]}, attempts[0]);
      }
    }
  }

  /** Over any sequence of runs, failing ones included, no reminder is ever sent twice. */
  lemma {:induction false} NeverSentTwice(rounds: seq<Round>)
    ensures NoRepeats(OutboxAfter(rounds))
    decreases |rounds|
  {
    if rounds != [] {
      hide Fresh, AllAttempts, RunTasks;
      var n := |rounds| - 1;
      NeverSentTwice(rounds[..n]);
      var before, pending := OutboxAfter(rounds[..n]), Pending(rounds);
      var attempts := AllAttempts(RunTasks(rounds[n].view, rounds[n].view.employments));
      FreshNoRepeats(attempts, Elements(before));
      forall i | 0 <= i < |pending| ensures pending[i] !in before {
        FreshElements(attempts, Elements(before), pending[i]);
      }
    }
  }

  /** What a run attempts, reminder by reminder. */
  lemma {:induction false} RunAttempts(v: View, employments: seq<nat>, x: Sent)
    requires forall e :: e in employments ==> e in v.employments
    ensures x in AllAttempts(RunTasks(v, employments))
      <==> x.employment in employments && 1 <= x.sequenceNo <= DueFor(v, x.employment, x.day, x.kind)
  {
    hide DayOf, ArrivalDue, DepartureDue, PreviousDayDue, Attempts;
    if employments != [] {
      var e := employments[0];
      FirstEmployment(v, employments);
      ThreeTasks(v, e);
      RunAttempts(v, employments[1..], x);
      var t := TasksOf(v, e);
      AttemptElements(t[0], 1, x); AttemptElements(t[1], 1, x); AttemptElements(t[2], 1, x);
    }
  }

  lemma {:induction false} DueAtMostFive(v: View, e: nat, day: int, kind: Kind)
    ensures DueFor(v, e, day, kind) <= MAX_ATTEMPTS
  {
    hide DayOf, CountOn;
  }

  /** The predecessor of every attempt comes before it or was sent earlier. */
  ghost predicate Sequential(attempts: seq<Sent>, sent: set<Sent>) {
    forall i :: 0 <= i < |attempts| && attempts[i].sequenceNo > 1 ==>
      Before(attempts[i]) in sent || Before(attempts[i]) in attempts[..i]
  }

  function Before(x: Sent): Sent
    requires x.sequenceNo > 0
  {
    x.(sequenceNo := x.sequenceNo - 1)
  }

  /** Whatever reminder was sent, its predecessor was. */
  ghost predicate Closed(sent: set<Sent>) {
    forall x :: x in sent ==> x.sequenceNo >= 1 && (x.sequenceNo > 1 ==> Before(x) in sent)
  }

  lemma {:induction false} FreshClosed(attempts: seq<Sent>, sent: set<Sent>, n: nat)
    requires Sequential(attempts, sent) && Closed(sent) && n <= |Fresh(attempts, sent)|
    requires forall x :: x in attempts ==> x.sequenceNo >= 1
    ensures Closed(sent + Elements(Fresh(attempts, sent)[..n]))
  {
    if n == 0 {
      assert sent + Elements([]) == sent;
    } else {
      var head, rest := attempts[0], attempts[1..];
      assert head.sequenceNo > 1 ==> Before(head) in sent by { assert attempts[..0] == []; }
      SequentialRest(attempts, sent);
      if head in sent {
        assert sent + {head} == sent;
        FreshClosed(rest, sent, n);
      } else {
        FreshClosed(rest, sent + {head}, n - 1);
        var tail := Fresh(rest, sent + {head})[..n - 1];
        assert Fresh(attempts, sent)[..n] == [head] + tail;
        ElementsConcat([head], tail);
        assert sent + Elements([head] + tail) == sent + {head} + Elements(tail);
      }
    }
  }

  lemma {:induction false} SequentialRest(attempts: seq<Sent>, sent: set<Sent>)
    requires attempts != [] && Sequential(attempts, sent)
    ensures Sequential(attempts[1..], sent + {attempts[0]})
  {
    var rest := attempts[1..];
    forall i | 0 <= i < |rest| && rest[i].sequenceNo > 1
      ensures Before(rest[i]) in sent + {attempts[0]} || Before(rest[i]) in rest[..i]
    {
      assert attempts[i + 1] == rest[i];
      assert attempts[..i + 1] == [attempts[0]] + rest[..i];
    }
  }

  lemma {:induction false} AttemptsSequential(t: Task, from: nat, sent: set<Sent>)
    requires from >= 1 && (from > 1 ==> Sent(t.employment, t.day, t.kind, from - 1) in sent)
    ensures Sequential(Attempts(t, from), sent)
    decreases t.due - from + 1
  {
    if from <= t.due {
      var key, rest := Sent(t.employment, t.day, t.kind, from), Attempts(t, from + 1);
      AttemptsSequential(t, from + 1, sent + {key});
      forall i | 0 < i <= |rest| && ([key] + rest)[i].sequenceNo > 1
        ensures Before(([key] + rest)[i]) in sent || Before(([key] + rest)[i]) in ([key] + rest)[..i]
      {
        assert ([key] + rest)[i] == rest[i - 1];
        assert ([key] + rest)[..i] == [key] + rest[..i - 1];
      }
    }
  }

  lemma {:induction false} SequentialConcat(a: seq<Sent>, b: seq<Sent>, sent: set<Sent>)
    requires Sequential(a, sent) && Sequential(b, sent)
    ensures Sequential(a + b, sent)
  {
    forall i | 0 <= i < |a + b| && (a + b)[i].sequenceNo > 1
      ensures Before((a + b)[i]) in sent || Before((a + b)[i]) in (a + b)[..i]
    {
      if i < |a| {
        assert (a + b)[..i] == a[..i];
      } else {
        assert (a + b)[i] == b[i - |a|];
        assert (a + b)[..i] == a + b[..i - |a|];
      }
    }
  }

  lemma {:induction false} AllAttemptsSequential(tasks: seq<Task>, sent: set<Sent>)
    ensures Sequential(AllAttempts(tasks), sent)
  {
    if tasks != [] {
      AttemptsSequential(tasks[0], 1, sent);
      AllAttemptsSequential(tasks[1..], sent);
      SequentialConcat(Attempts(tasks[0], 1), AllAttempts(tasks[1..]), sent);
    }
  }

  lemma {:induction false} OutboxClosed(rounds: seq<Round>)
    ensures Closed(Elements(OutboxAfter(rounds)))
    decreases |rounds|
  {
    hide AllAttempts, RunTasks, Fresh, Sequential, Closed;
    if rounds == [] {
      NothingClosed();
    } else {
      var n := |rounds| - 1;
      var tasks := RunTasks(rounds[n].view, rounds[n].view.employments);
      var before := Elements(OutboxAfter(rounds[..n]));
      OutboxClosed(rounds[..n]);
      AllAttemptsSequential(tasks, before);
      forall x | x in AllAttempts(tasks) ensures x.sequenceNo >= 1 {
        AllAttemptElements(tasks, x);
      }
      var k := Min(rounds[n].budget, |Pending(rounds)|);
      FreshClosed(AllAttempts(tasks), before, k);
      ElementsConcat(OutboxAfter(rounds[..n]), Pending(rounds)[..k]);
    }
  }

  lemma {:induction false} NothingClosed()
    ensures Closed(Elements([]))
  {
  }

  lemma {:induction false} ClosedDown(sent: set<Sent>, x: Sent, i: nat)
    requires Closed(sent) && x in sent && 1 <= i <= x.sequenceNo
    ensures x.(sequenceNo := i) in sent
    decreases x.sequenceNo
  {
    if i < x.sequenceNo {
      ClosedDown(sent, Before(x), i);
    }
  }

  /** Every mail sent was due in some run. */
  lemma {:induction false} SentWasDue(rounds: seq<Round>, x: Sent)
    requires x in OutboxAfter(rounds)
    ensures exists i :: 0 <= i < |rounds| && x.sequenceNo <= DueFor(rounds[i].view, x.employment, x.day, x.kind)
    decreases |rounds|
  {
    hide DueFor, Fresh, AllAttempts, RunTasks;
    var n := |rounds| - 1;
    var v := rounds[n].view;
    if x in OutboxAfter(rounds[..n]) {
      SentWasDue(rounds[..n], x);
      var i :| 0 <= i < n && x.sequenceNo <= DueFor(rounds[..n][i].view, x.employment, x.day, x.kind);
      assert rounds[i] == rounds[..n][i];
    } else {
      FreshElements(AllAttempts(RunTasks(v, v.employments)), Elements(OutboxAfter(rounds[..n])), x);
      RunAttempts(v, v.employments, x);
    }
  }

  lemma {:induction false} OutboxGrows(rounds: seq<Round>, i: nat, x: Sent)
    requires i <= |rounds| && x in OutboxAfter(rounds[..i])
    ensures x in OutboxAfter(rounds)
    decreases |rounds|
  {
    hide Pending;
    if i == |rounds| {
      assert rounds[..i] == rounds;
    } else {
      var n := |rounds| - 1;
      assert rounds[..n][..i] == rounds[..i];
      OutboxGrows(rounds[..n], i, x);
    }
  }

  /** Whatever a run that completed found due has been sent. */
  lemma {:induction false} DueWasSent(rounds: seq<Round>, i: nat, x: Sent)
    requires i < |rounds| && Completed(rounds[..i + 1])
    requires 1 <= x.sequenceNo <= DueFor(rounds[i].view, x.employment, x.day, x.kind)
    ensures x in OutboxAfter(rounds)
  {
    hide DueFor, Fresh, AllAttempts, RunTasks;
    var upto, v := rounds[..i + 1], rounds[i].view;
    assert upto[..i] == rounds[..i] && upto[i] == rounds[i];
    DueOnlyEligible(v, x.employment, x.day, x.kind);
    RunAttempts(v, v.employments, x);
    FreshElements(AllAttempts(RunTasks(v, v.employments)), Elements(OutboxAfter(upto[..i])), x);
    assert x in OutboxAfter(upto);
    OutboxGrows(rounds, i + 1, x);
  }

  lemma {:induction false} DueOnlyEligible(v: View, e: nat, day: int, kind: Kind)
    ensures DueFor(v, e, day, kind) > 0 ==> e in v.employments
  {
  }

  /** The number of the last reminder sent of one kind for one employment and day. */
  function Reached(outbox: seq<Sent>, e: nat, day: int, kind: Kind, upTo: nat): nat {
    if upTo == 0 || Sent(e, day, kind, upTo) in outbox then upTo else Reached(outbox, e, day, kind, upTo - 1)
  }

  lemma {:induction false} ReachedIsLast(outbox: seq<Sent>, e: nat, day: int, kind: Kind, upTo: nat)
    ensures var k := Reached(outbox, e, day, kind, upTo);
      && k <= upTo && (k > 0 ==> Sent(e, day, kind, k) in outbox)
      && forall i :: k < i <= upTo ==> Sent(e, day, kind, i) !in outbox
  {
    if upTo > 0 {
      ReachedIsLast(outbox, e, day, kind, upTo - 1);
    }
  }

  /** After any runs the reminders sent of one kind for one employment and day are numbers 1 to k, at
      most five: no run ever found fewer than k due in all, and every completed run's due ones are in. */
  lemma {:induction false} SentArePrefix(rounds: seq<Round>, e: nat, day: int, kind: Kind)
    ensures var k := Reached(OutboxAfter(rounds), e, day, kind, MAX_ATTEMPTS);
      && (forall i: nat :: Sent(e, day, kind, i) in OutboxAfter(rounds) <==> 1 <= i <= k)
      && (k > 0 ==> exists i :: 0 <= i < |rounds| && DueFor(rounds[i].view, e, day, kind) >= k)
      && (forall i :: 0 <= i < |rounds| && Completed(rounds[..i + 1]) ==> DueFor(rounds[i].view, e, day, kind) <= k)
  {
    hide DueFor, Reached, OutboxAfter, Completed, Closed;
    var outbox := OutboxAfter(rounds);
    var k := Reached(outbox, e, day, kind, MAX_ATTEMPTS);
    ReachedIsLast(outbox, e, day, kind, MAX_ATTEMPTS);
    OutboxClosed(rounds);
    forall i: nat ensures Sent(e, day, kind, i) in outbox <==> 1 <= i <= k {
      if Sent(e, day, kind, i) in outbox {
        SentWasDue(rounds, Sent(e, day, kind, i));
        var j :| 0 <= j < |rounds| && i <= DueFor(rounds[j].view, e, day, kind);
        DueAtMostFive(rounds[j].view, e, day, kind);
        ClosedNumbers(Elements(outbox), Sent(e, day, kind, i));
      }
      if 1 <= i <= k {
        ClosedDown(Elements(outbox), Sent(e, day, kind, k), i);
      }
    }
    if k > 0 {
      SentWasDue(rounds, Sent(e, day, kind, k));
    }
    forall i | 0 <= i < |rounds| && Completed(rounds[..i + 1]) ensures DueFor(rounds[i].view, e, day, kind) <= k {
      var due := DueFor(rounds[i].view, e, day, kind);
      if due > 0 {
        DueWasSent(rounds, i, Sent(e, day, kind, due));
      }
    }
  }

  lemma {:induction false} ClosedNumbers(sent: set<Sent>, x: Sent)
    requires Closed(sent) && x in sent
    ensures x.sequenceNo >= 1
  {
  }

  // ---- when a reminder is sent ----

  /** The punches of an employment on a day. */
  ghost function PunchesOn(punches: seq<(nat, nat)>, e: nat, day: nat): set<nat> {
    set i | 0 <= i < |punches| && punches[i].0 == e && DayOf(punches[i].1) == day
  }

  lemma {:induction false} CountIsNumber(punches: seq<(nat, nat)>, e: nat, day: nat)
    ensures CountOn(punches, e, day) == |PunchesOn(punches, e, day)|
  {
    hide DayOf;
    if punches != [] {
      var n := |punches| - 1;
      var before := PunchesOn(punches[..n], e, day);
      CountIsNumber(punches[..n], e, day);
      assert PunchesOn(punches, e, day) == before + if punches[n].0 == e && DayOf(punches[n].1) == day then {n} else {};
      assert n !in before;
    }
  }

  /** Reminder number `i` is due: five minutes after a planned arrival without any punch that day, two hours
      after a planned departure while punched in, or from eight o'clock after a day left punched in; the
      later ones every ten minutes, and five in all. */
  ghost predicate Reminds(v: View, e: nat, day: int, kind: Kind, i: nat) {
    var today := DayOf(v.now);
    && e in v.employments && 1 <= i <= 5
    && match kind
       case MissingArrival =>
         && day == today && (e, today) in v.plans && v.plans[(e, today)].arrival.Some?
         && PunchesOn(v.punches, e, today) == {}
         && today * 1440 + v.plans[(e, today)].arrival.value + 5 + 10 * (i - 1) <= v.now
       case MissingDepartureAfterShift =>
         && day == today && (e, today) in v.plans && v.plans[(e, today)].departure.Some?
         && |PunchesOn(v.punches, e, today)| % 2 == 1
         && today * 1440 + v.plans[(e, today)].departure.value + 120 + 10 * (i - 1) <= v.now
       case MissingDeparturePreviousDay =>
         && day == today - 1 && 0 < today && |PunchesOn(v.punches, e, today - 1)| % 2 == 1
         && today * 1440 + 8 * 60 + 10 * (i - 1) <= v.now
  }

  lemma {:induction false} DueExactly(v: View, e: nat, day: int, kind: Kind, i: nat)
    requires 1 <= i
    ensures i <= DueFor(v, e, day, kind) <==> Reminds(v, e, day, kind, i)
  {
    hide DayOf, Due, CountOn, PunchesOn;
    var today := DayOf(v.now);
    CountIsNumber(v.punches, e, today);
    match kind
    case MissingArrival =>
      if (e, today) in v.plans && v.plans[(e, today)].arrival.Some? {
        AttemptTimes(v.now, today * MINUTES_PER_DAY + v.plans[(e, today)].arrival.value + 5, i);
      }
    case MissingDepartureAfterShift =>
      if (e, today) in v.plans && v.plans[(e, today)].departure.Some? {
        AttemptTimes(v.now, today * MINUTES_PER_DAY + v.plans[(e, today)].departure.value + 120, i);
      }
    case MissingDeparturePreviousDay =>
      if 0 < today {
        CountIsNumber(v.punches, e, today - 1);
        AttemptTimes(v.now, today * MINUTES_PER_DAY + 480, i);
      }
  }

  /** Every mail sent was due in some run, and whatever was due in a run the sender completed has been sent. */
  lemma {:induction false} SentWhenDue(rounds: seq<Round>, x: Sent)
    ensures x in OutboxAfter(rounds) ==>
      exists i :: 0 <= i < |rounds| && Reminds(rounds[i].view, x.employment, x.day, x.kind, x.sequenceNo)
    ensures forall i :: 0 <= i < |rounds| && Completed(rounds[..i + 1]) ==>
      Reminds(rounds[i].view, x.employment, x.day, x.kind, x.sequenceNo) ==> x in OutboxAfter(rounds)
  {
    hide DueFor, OutboxAfter, Completed, Reminds, Closed;
    if x in OutboxAfter(rounds) {
      OutboxClosed(rounds);
      ClosedNumbers(Elements(OutboxAfter(rounds)), x);
      SentWasDue(rounds, x);
      var i :| 0 <= i < |rounds| && x.sequenceNo <= DueFor(rounds[i].view, x.employment, x.day, x.kind);
      DueExactly(rounds[i].view, x.employment, x.day, x.kind, x.sequenceNo);
    }
    forall i | 0 <= i < |rounds| && Completed(rounds[..i + 1])
      && Reminds(rounds[i].view, x.employment, x.day, x.kind, x.sequenceNo)
      ensures x in OutboxAfter(rounds)
    {
      assert 1 <= x.sequenceNo by { FromFirst(rounds[i].view, x); }
      DueExactly(rounds[i].view, x.employment, x.day, x.kind, x.sequenceNo);
      DueWasSent(rounds, i, x);
    }
  }

  lemma {:induction false} FromFirst(v: View, x: Sent)
    requires Reminds(v, x.employment, x.day, x.kind, x.sequenceNo)
    ensures 1 <= x.sequenceNo
  {
  }
}
