/** Delays and intervals over whole runs of ticks: true time is unbounded, the millisecond counter wraps at 2^32. */
module SchedulerTiming {
  import opened Common
  import opened SchedulerTable
  import opened SchedulerInvariants
  import opened SchedulerRuns

  function ClockAt(ms: nat): uint32 {
    ms % CLOCK_MODULUS
  }

  /**
   * A deadline no further off than the longest interval is not found passed before it has, and a tick within half the
   * counter's range after it finds it passed.
   */
  lemma {:induction false} WrappedComparisonIsRight(deadline: nat, time: nat)
    ensures time < deadline <= time + MAX_INTERVAL ==> Before(ClockAt(time), ClockAt(deadline))
    ensures deadline <= time < deadline + CLOCK_MODULUS / 2 ==> !Before(ClockAt(time), ClockAt(deadline))
  {
    assert (ClockAt(time) - ClockAt(deadline)) % CLOCK_MODULUS == (time - deadline) % CLOCK_MODULUS;
  }

  lemma {:induction false} ClockAdds(time: nat, interval: uint32)
    ensures Plus(ClockAt(time), interval) == ClockAt(time + interval)
  {
  }

  // ----- a run: ticks at true times, with anything in between

  /** One tick: when it comes, what the wall clock says, what happens during it, and what after it until the next. */
  datatype Visit = Visit(time: nat, wall: Option<uint32>, retry: Option<bool>, plan: seq<seq<Op>>, after: seq<Op>)

  function Reading(v: Visit): Now {
    Now(ClockAt(v.time), v.wall)
  }

  /** The table after these visits, and what each of them ran. */
  function Visited(t: Table, visits: seq<Visit>): (r: (Table, seq<seq<Job>>))
    requires |t.jobs| == MAX_JOBS
    ensures |r.0.jobs| == MAX_JOBS && |r.1| == |visits|
    decreases |visits|
  {
    if visits == [] then (t, [])
    else
      var v := visits[0];
      var (ticked, ran) := WholeTick(t, v.retry, Reading(v), v.plan);
      var (end, more) := Visited(AppliedAll(ticked, v.after), visits[1..]);
      (end, [ran] + more)
  }

  /** Time does not go back, and nothing is scheduled but by the schedule forms. */
  predicate InOrder(visits: seq<Visit>, from: nat)
    decreases |visits|
  {
    visits == []
    || (from <= visits[0].time && TimedPlan(visits[0].plan) && TimedOps(visits[0].after)
        && InOrder(visits[1..], visits[0].time))
  }

  lemma {:induction false} TimesFollow(visits: seq<Visit>, from: nat, v: nat)
    requires InOrder(visits, from) && v < |visits|
    ensures from <= visits[v].time
    decreases |visits|
  {
    if v > 0 {
      TimesFollow(visits[1..], visits[0].time, v - 1);
    }
  }

  // ----- one monotonic job through a run

  predicate IsTimer(job: Job, id: uint32) {
    job.active && job.id == id && job.clock == Monotonic
  }

  /** However often a tick ran it. */
  function TimerRuns(ran: seq<Job>, id: uint32): nat {
    if ran == [] then 0 else (if IsTimer(ran[0], id) then 1 else 0) + TimerRuns(ran[1..], id)
  }

  /** If the job is still there, this is its deadline in true time. */
  ghost predicate DueAt(t: Table, id: uint32, interval: uint32, deadline: nat) {
    && Sound(t) && id < t.nextId
    && forall k :: 0 <= k < MAX_JOBS && IsTimer(t.jobs[k], id) ==>
         t.jobs[k].due == ClockAt(deadline) && t.jobs[k].interval == interval
  }

  /** The job's deadline once it has run: never the same instant, also when it is not to run again. */
  function NextDeadline(time: nat, interval: uint32): nat {
    time + if interval == 0 then 1 else interval
  }

  lemma {:induction false} MountKeepsDeadline(t: Table, read: bool, id: uint32, interval: uint32, deadline: nat)
    requires DueAt(t, id, interval, deadline)
    ensures DueAt(Mounted(t, read), id, interval, deadline)
  {
    ApplyKeepsSound(t, Mount(read));
    if t.file.Holds? {
      LoadFillsFreeSlots(t.(ready := true), t.file.records);
    }
  }

  lemma {:induction false} OpKeepsDeadline(t: Table, op: Op, id: uint32, interval: uint32, deadline: nat)
    requires DueAt(t, id, interval, deadline) && (op.Add? ==> Timed(op.request))
    ensures DueAt(Applied(t, op), id, interval, deadline)
  {
    if op.Mount? {
      MountKeepsDeadline(t, op.read, id, interval, deadline);
    } else {
      ApplyKeepsSound(t, op);
      ApplyOnlyYounger(t, op, id);
    }
  }

  lemma {:induction false} OpsKeepDeadline(t: Table, ops: seq<Op>, id: uint32, interval: uint32, deadline: nat)
    requires DueAt(t, id, interval, deadline) && TimedOps(ops)
    ensures DueAt(AppliedAll(t, ops), id, interval, deadline)
    decreases |ops|
  {
    if ops != [] {
      assert ops[0] in ops;
      OpKeepsDeadline(t, ops[0], id, interval, deadline);
      OpsKeepDeadline(Applied(t, ops[0]), ops[1..], id, interval, deadline);
    }
  }

  /** A slot that fires keeps the deadline of every other job; the job itself fires only when due, and starts over. */
  lemma {:induction false} FireAtDeadline(t: Table, i: nat, time: nat, wall: Option<uint32>, last: uint32,
                                          id: uint32, interval: uint32, deadline: nat)
    requires DueAt(t, id, interval, deadline) && i < MAX_JOBS && deadline <= time + MAX_INTERVAL
    ensures var (fired, run) := Fired(t, i, Now(ClockAt(time), wall), last);
            if run.Some? && IsTimer(run.value, id)
            then deadline <= time && DueAt(fired, id, interval, NextDeadline(time, interval))
            else DueAt(fired, id, interval, deadline)
  {
    var now := Now(ClockAt(time), wall);
    var fired := Fired(t, i, now, last).0;
    FireKeepsSound(t, i, now, last);
    FireElsewhere(t, i, now, last);
    WrappedComparisonIsRight(deadline, time);
    ClockAdds(time, interval);
    if IsTimer(t.jobs[i], id) {
      assert forall k :: 0 <= k < MAX_JOBS && k != i ==> !IsTimer(fired.jobs[k], id);
    }
  }

  /** A tick runs the job not at all, or once and not before its deadline, which it then sets anew. */
  lemma {:induction false} TickAtDeadline(t: Table, i: nat, time: nat, wall: Option<uint32>, last: uint32, plan: seq<seq<Op>>,
                                          id: uint32, interval: uint32, deadline: nat)
    requires DueAt(t, id, interval, deadline) && i <= MAX_JOBS && interval <= MAX_INTERVAL && TimedPlan(plan)
    requires deadline <= time + MAX_INTERVAL
    ensures var (after, ran) := Ticked(t, i, Now(ClockAt(time), wall), last, plan);
            || (TimerRuns(ran, id) == 0 && DueAt(after, id, interval, deadline))
            || (TimerRuns(ran, id) == 1 && deadline <= time && DueAt(after, id, interval, NextDeadline(time, interval)))
    decreases MAX_JOBS - i
  {
    var now := Now(ClockAt(time), wall);
    if i < MAX_JOBS && t.on {
      var (fired, run) := Fired(t, i, now, last);
      FireAtDeadline(t, i, time, wall, last, id, interval, deadline);
      if run.None? {
        TickAtDeadline(fired, i + 1, time, wall, last, plan, id, interval, deadline);
      } else {
        var next := if IsTimer(run.value, id) then NextDeadline(time, interval) else deadline;
        var during, later := if plan == [] then [] else plan[0], if plan == [] then [] else plan[1..];
        assert plan != [] ==> plan[0] in plan;
        OpsKeepDeadline(fired, during, id, interval, next);
        var unlocked := AppliedAll(fired, during);
        TickAtDeadline(unlocked, i + 1, time, wall, last, later, id, interval, next);
        var more := Ticked(unlocked, i + 1, now, last, later).1;
        assert ([run.value] + more)[1..] == more;
      }
    }
  }

  lemma {:induction false} VisitAtDeadline(t: Table, v: Visit, id: uint32, interval: uint32, deadline: nat)
    requires DueAt(t, id, interval, deadline) && interval <= MAX_INTERVAL && TimedPlan(v.plan) && TimedOps(v.after)
    requires deadline <= v.time + MAX_INTERVAL
    ensures var (ticked, ran) := WholeTick(t, v.retry, Reading(v), v.plan);
            || (TimerRuns(ran, id) == 0 && DueAt(AppliedAll(ticked, v.after), id, interval, deadline))
            || (TimerRuns(ran, id) == 1 && deadline <= v.time
                && DueAt(AppliedAll(ticked, v.after), id, interval, NextDeadline(v.time, interval)))
  {
    if v.retry.Some? {
      MountKeepsDeadline(t, v.retry.value, id, interval, deadline);
    }
    var ready := Retried(t, v.retry);
    TickAtDeadline(ready, 0, v.time, v.wall, LastId(ready), v.plan, id, interval, deadline);
    var (ticked, ran) := WholeTick(t, v.retry, Reading(v), v.plan);
    OpsKeepDeadline(ticked, v.after, id, interval, if TimerRuns(ran, id) == 0 then deadline else NextDeadline(v.time, interval));
  }

  lemma {:induction false} FirstVisit(t: Table, visits: seq<Visit>) returns (next: Table)
    requires |t.jobs| == MAX_JOBS && visits != []
    ensures |next.jobs| == MAX_JOBS
    ensures next == AppliedAll(WholeTick(t, visits[0].retry, Reading(visits[0]), visits[0].plan).0, visits[0].after)
    ensures Visited(t, visits).1[0] == WholeTick(t, visits[0].retry, Reading(visits[0]), visits[0].plan).1
    ensures Visited(t, visits).1[1..] == Visited(next, visits[1..]).1
    ensures forall v :: 1 <= v < |visits| ==> Visited(t, visits).1[v] == Visited(next, visits[1..]).1[v - 1]
  {
    next := AppliedAll(WholeTick(t, visits[0].retry, Reading(visits[0]), visits[0].plan).0, visits[0].after);
  }

  /** No tick before the deadline runs the job, whatever happens between and during the ticks. */
  lemma {:induction false} NeverEarly(t: Table, visits: seq<Visit>, from: nat, id: uint32, interval: uint32,
                                      deadline: nat, v: nat)
    requires DueAt(t, id, interval, deadline) && interval <= MAX_INTERVAL && deadline <= from + MAX_INTERVAL
    requires InOrder(visits, from) && v < |visits| && visits[v].time < deadline
    ensures TimerRuns(Visited(t, visits).1[v], id) == 0
    decreases |visits|
  {
    var next := FirstVisit(t, visits);
    VisitAtDeadline(t, visits[0], id, interval, deadline);
    if v > 0 {
      TimesFollow(visits[1..], visits[0].time, v - 1);
      NeverEarly(next, visits[1..], visits[0].time, id, interval, deadline, v - 1);
    }
  }

  /** One tick runs the job at most once, and two ticks that run it are at least its interval apart. */
  lemma {:induction false} RunsAreApart(t: Table, visits: seq<Visit>, from: nat, id: uint32, interval: uint32,
                                        deadline: nat, a: nat, b: nat)
    requires DueAt(t, id, interval, deadline) && 0 < interval <= MAX_INTERVAL && deadline <= from + MAX_INTERVAL
    requires InOrder(visits, from) && a < b < |visits|
    ensures TimerRuns(Visited(t, visits).1[a], id) <= 1
    ensures TimerRuns(Visited(t, visits).1[a], id) > 0 && TimerRuns(Visited(t, visits).1[b], id) > 0 ==>
              visits[b].time >= visits[a].time + interval
    decreases |visits|
  {
    var next := FirstVisit(t, visits);
    var time, rest := visits[0].time, visits[1..];
    VisitAtDeadline(t, visits[0], id, interval, deadline);
    var ran := TimerRuns(Visited(t, visits).1[0], id);
    if a == 0 {
      if ran == 1 && visits[b].time < NextDeadline(time, interval) {
        NeverEarly(next, rest, time, id, interval, NextDeadline(time, interval), b - 1);
      }
    } else {
      RunsAreApart(next, rest, time, id, interval, if ran == 0 then deadline else NextDeadline(time, interval), a - 1, b - 1);
    }
  }

  // ----- a job that is left in its slot

  /** The operation neither removes the job nor clears its scope. */
  predicate Spares(op: Op, job: Job) {
    match op
    case Remove(scope, s) => !Selects(job, scope, s)
    case Clear(scope) => scope != job.scope
    case _ => true
  }

  predicate SparesAll(ops: seq<Op>, job: Job) {
    forall op :: op in ops ==> Spares(op, job)
  }

  predicate SparesInPlan(plan: seq<seq<Op>>, job: Job) {
    forall ops :: ops in plan ==> SparesAll(ops, job)
  }

  predicate Holding(t: Table, k: nat, job: Job) {
    |t.jobs| == MAX_JOBS && k < MAX_JOBS && t.jobs[k] == job && job.active
  }

  /** A persisted one-shot runs only once its removal is saved. */
  predicate MustSave(job: Job) {
    Persists(job) && job.interval == 0
  }

  /** If the job's removal is to be saved, that works. */
  predicate Savable(t: Table, job: Job) {
    MustSave(job) ==> t.ready && t.writes == []
  }

  /** The job after a tick that finds it waiting: a wall interval that has not begun begins at the first reading. */
  function Begun(job: Job, now: Now): Job {
    if job.clock == Wall && now.wall.Some? && job.due == 0 && job.interval != 0
    then job.(due := Plus(now.wall.value, job.interval)) else job
  }

  lemma {:induction false} MountLeaves(t: Table, read: bool, k: nat, job: Job)
    requires Holding(t, k, job)
    ensures Holding(Mounted(t, read), k, job) && (Savable(t, job) ==> Savable(Mounted(t, read), job))
  {
    if t.file.Holds? {
      LoadFillsFreeSlots(t.(ready := true), t.file.records);
    }
  }

  lemma {:induction false} OpLeaves(t: Table, op: Op, k: nat, job: Job)
    requires Holding(t, k, job) && Spares(op, job)
    ensures Holding(Applied(t, op), k, job) && (Applied(t, op).on ==> t.on)
    ensures Savable(t, job) ==> Savable(Applied(t, op), job)
  {
    if op.Mount? {
      MountLeaves(t, op.read, k, job);
    }
  }

  lemma {:induction false} OpsLeave(t: Table, ops: seq<Op>, k: nat, job: Job)
    requires Holding(t, k, job) && SparesAll(ops, job)
    ensures Holding(AppliedAll(t, ops), k, job) && (AppliedAll(t, ops).on ==> t.on)
    ensures Savable(t, job) ==> Savable(AppliedAll(t, ops), job)
    decreases |ops|
  {
    if ops != [] {
      assert ops[0] in ops;
      OpLeaves(t, ops[0], k, job);
      OpsLeave(Applied(t, ops[0]), ops[1..], k, job);
    }
  }

  /** What a tick makes of a job in slot k, which it has ahead of it or has passed. */
  predicate Reaches(t: Table, now: Now, k: nat, job: Job, after: Table, ran: seq<Job>, ahead: bool) {
    && (after.on ==> t.on)
    && (!ahead ==> Holding(after, k, job))
    && (ahead && Waits(job, now) && after.on ==> Holding(after, k, Begun(job, now)))
    && (ahead && !Waits(job, now) && after.on ==> job in ran || (MustSave(job) && Holding(after, k, job)))
    && (ahead && !Waits(job, now) && after.on && Savable(t, job) ==> job in ran)
    && ((!ahead || Waits(job, now)) && Savable(t, job) ==> Savable(after, job))
  }

  /** A tick that still has the job's slot ahead of it runs the job if it is due and, where it must, its removal is saved;
      it leaves the job alone if it is not. */
  lemma {:induction false} TickReaches(t: Table, i: nat, now: Now, last: uint32, plan: seq<seq<Op>>, k: nat, job: Job)
    requires Holding(t, k, job) && i <= MAX_JOBS && job.id <= last && SparesInPlan(plan, job)
    ensures Reaches(t, now, k, job, Ticked(t, i, now, last, plan).0, Ticked(t, i, now, last, plan).1, i <= k)
    decreases MAX_JOBS - i, 1
  {
    if i < MAX_JOBS && t.on {
      if i == k {
        TickMeets(t, now, last, plan, k, job);
      } else {
        TickPasses(t, i, now, last, plan, k, job);
      }
    }
  }

  /** Another slot. */
  lemma {:induction false} TickPasses(t: Table, i: nat, now: Now, last: uint32, plan: seq<seq<Op>>, k: nat, job: Job)
    requires Holding(t, k, job) && i < MAX_JOBS && t.on && i != k && job.id <= last && SparesInPlan(plan, job)
    ensures Reaches(t, now, k, job, Ticked(t, i, now, last, plan).0, Ticked(t, i, now, last, plan).1, i <= k)
    decreases MAX_JOBS - i, 0
  {
    var (fired, run) := Fired(t, i, now, last);
    assert Holding(fired, k, job) && (Savable(t, job) ==> Savable(fired, job));
    if run.None? {
      TickReaches(fired, i + 1, now, last, plan, k, job);
    } else {
      var during, later := if plan == [] then [] else plan[0], if plan == [] then [] else plan[1..];
      assert plan != [] ==> plan[0] in plan;
      OpsLeave(fired, during, k, job);
      TickReaches(AppliedAll(fired, during), i + 1, now, last, later, k, job);
    }
  }

  /** What firing makes of the job's own slot. */
  lemma {:induction false} FireMeets(t: Table, now: Now, last: uint32, k: nat, job: Job)
    requires Holding(t, k, job) && job.id <= last
    ensures var (fired, run) := Fired(t, k, now, last);
            && (run.Some? ==> run == Some(job))
            && (run.None? ==> Holding(fired, k, Begun(job, now)))
            && (Waits(job, now) ==> run.None? && (Savable(t, job) ==> Savable(fired, job)))
            && (!Waits(job, now) && run.None? ==> MustSave(job) && (Savable(t, job) ==> !fired.on) && Begun(job, now) == job)
  {
  }

  /** The job's own slot. */
  lemma {:induction false} TickMeets(t: Table, now: Now, last: uint32, plan: seq<seq<Op>>, k: nat, job: Job)
    requires Holding(t, k, job) && t.on && job.id <= last && SparesInPlan(plan, job)
    ensures Reaches(t, now, k, job, Ticked(t, k, now, last, plan).0, Ticked(t, k, now, last, plan).1, true)
    decreases MAX_JOBS - k, 0
  {
    var (fired, run) := Fired(t, k, now, last);
    FireMeets(t, now, last, k, job);
    if run.None? {
      assert SparesInPlan(plan, Begun(job, now)) by { BegunIsSpared(plan, job, now); }
      TickReaches(fired, k + 1, now, last, plan, k, Begun(job, now));
    }
  }

  lemma {:induction false} BegunIsSpared(plan: seq<seq<Op>>, job: Job, now: Now)
    requires SparesInPlan(plan, job)
    ensures SparesInPlan(plan, Begun(job, now))
  {
    forall ops | ops in plan ensures SparesAll(ops, Begun(job, now)) {
      assert SparesAll(ops, job);
      forall op | op in ops ensures Spares(op, Begun(job, now)) {
        assert Spares(op, job);
      }
    }
  }

  /** Power lasts until visit v has run its jobs. */
  predicate StaysOn(t: Table, visits: seq<Visit>, v: nat)
    requires |t.jobs| == MAX_JOBS && v < |visits|
    decreases |visits|
  {
    var ticked := WholeTick(t, visits[0].retry, Reading(visits[0]), visits[0].plan).0;
    ticked.on && (v == 0 || StaysOn(AppliedAll(ticked, visits[0].after), visits[1..], v - 1))
  }

  /** Visit v is the first at or after the deadline, and soon enough for the counter to tell. */
  predicate FirstAtOrAfter(visits: seq<Visit>, deadline: nat, v: nat) {
    && v < |visits| && deadline <= visits[v].time < deadline + CLOCK_MODULUS / 2
    && forall u :: 0 <= u < v ==> visits[u].time < deadline
  }

  /** Nobody removes the job before visit v has run it. */
  predicate LeftAlone(visits: seq<Visit>, job: Job, v: nat)
    requires v < |visits|
  {
    && (forall u :: 0 <= u <= v ==> SparesInPlan(visits[u].plan, job))
    && (forall u :: 0 <= u < v ==> SparesAll(visits[u].after, job))
  }

  lemma {:induction false} VisitReaches(t: Table, v: Visit, k: nat, job: Job, interval: uint32, deadline: nat)
    requires DueAt(t, job.id, interval, deadline) && Holding(t, k, job) && job.clock == Monotonic && SparesInPlan(v.plan, job)
    requires deadline <= v.time + MAX_INTERVAL
    ensures var (ticked, ran) := WholeTick(t, v.retry, Reading(v), v.plan);
            && (deadline <= v.time < deadline + CLOCK_MODULUS / 2 && ticked.on ==> job in ran)
            && (v.time < deadline && ticked.on ==> Holding(ticked, k, job))
  {
    if v.retry.Some? {
      MountKeepsDeadline(t, v.retry.value, job.id, interval, deadline);
      MountLeaves(t, v.retry.value, k, job);
    }
    var ready := Retried(t, v.retry);
    WrappedComparisonIsRight(deadline, v.time);
    TickReaches(ready, 0, Reading(v), LastId(ready), v.plan, k, job);
  }

  /** Left in the table, the job is run by the first tick at or after its deadline. */
  lemma {:induction false} FiresAtFirstTick(t: Table, visits: seq<Visit>, from: nat, k: nat, job: Job, interval: uint32,
                                            deadline: nat, v: nat)
    requires DueAt(t, job.id, interval, deadline) && interval <= MAX_INTERVAL && deadline <= from + MAX_INTERVAL
    requires Holding(t, k, job) && job.clock == Monotonic && InOrder(visits, from) && FirstAtOrAfter(visits, deadline, v)
    requires LeftAlone(visits, job, v) && StaysOn(t, visits, v)
    ensures job in Visited(t, visits).1[v]
    decreases |visits|
  {
    var next := FirstVisit(t, visits);
    VisitReaches(t, visits[0], k, job, interval, deadline);
    if v > 0 {
      VisitAtDeadline(t, visits[0], job.id, interval, deadline);
      OpsLeave(WholeTick(t, visits[0].retry, Reading(visits[0]), visits[0].plan).0, visits[0].after, k, job);
      assert forall u :: 0 <= u < v ==> visits[1..][u] == visits[u + 1];
      FiresAtFirstTick(next, visits[1..], visits[0].time, k, job, interval, deadline, v - 1);
    }
  }

  // ----- what the schedule forms promise

  /** The interval a monotonic form asks for, and how long until the first run. */
  function DelayOf(form: Form): uint32 {
    match form case After(delay) => delay case EveryMonotonic(ms) => ms case _ => 0
  }

  function IntervalOf(form: Form): uint32 {
    match form case EveryMonotonic(ms) => ms case _ => 0
  }

  predicate IsMonotonic(form: Form) {
    form.After? || form.EveryMonotonic?
  }

  lemma {:induction false} ScheduledTimer(t: Table, tag: string, target: Target, form: Form, start: nat,
                                          wall: Option<uint32>) returns (k: nat)
    requires Sound(t) && IsMonotonic(form) && Scheduled(t, tag, target, form, Now(ClockAt(start), wall)).1.Some?
    ensures var (after, id) := Scheduled(t, tag, target, form, Now(ClockAt(start), wall));
            && DueAt(after, id.value, IntervalOf(form), start + DelayOf(form))
            && DelayOf(form) <= MAX_INTERVAL
            && k < MAX_JOBS && Holding(after, k, after.jobs[k]) && IsTimer(after.jobs[k], id.value)
  {
    var now := Now(ClockAt(start), wall);
    ScheduleKeepsSound(t, tag, target, form, now);
    ClockAdds(start, DelayOf(form));
    k := FirstFree(t.jobs);
  }

  /** Over any run that follows, no tick runs a delayed or recurring job before the delay it was scheduled with. */
  lemma {:induction false} ScheduledDelayIsKept(t: Table, tag: string, target: Target, form: Form, start: nat,
                                                wall: Option<uint32>,
                                                visits: seq<Visit>, v: nat)
    requires Sound(t) && IsMonotonic(form) && Scheduled(t, tag, target, form, Now(ClockAt(start), wall)).1.Some?
    requires InOrder(visits, start) && v < |visits| && visits[v].time < start + DelayOf(form)
    ensures var (after, id) := Scheduled(t, tag, target, form, Now(ClockAt(start), wall));
            TimerRuns(Visited(after, visits).1[v], id.value) == 0
  {
    var k := ScheduledTimer(t, tag, target, form, start, wall);
    var (after, id) := Scheduled(t, tag, target, form, Now(ClockAt(start), wall));
    NeverEarly(after, visits, start, id.value, IntervalOf(form), start + DelayOf(form), v);
  }

  /**
   * The first tick at or after the delay, if it comes within half the counter's range and finds the job still there,
   * runs it.
   */
  lemma {:induction false} ScheduledDelayFires(t: Table, tag: string, target: Target, form: Form, start: nat,
                                               wall: Option<uint32>,
                                               visits: seq<Visit>, v: nat)
    returns (k: nat)
    requires Sound(t) && IsMonotonic(form) && Scheduled(t, tag, target, form, Now(ClockAt(start), wall)).1.Some?
    requires InOrder(visits, start) && FirstAtOrAfter(visits, start + DelayOf(form), v)
    ensures var (after, id) := Scheduled(t, tag, target, form, Now(ClockAt(start), wall));
            && k < MAX_JOBS && IsTimer(after.jobs[k], id.value)
            && (LeftAlone(visits, after.jobs[k], v) && StaysOn(after, visits, v) ==>
                  after.jobs[k] in Visited(after, visits).1[v])
  {
    k := ScheduledTimer(t, tag, target, form, start, wall);
    var after := Scheduled(t, tag, target, form, Now(ClockAt(start), wall)).0;
    if LeftAlone(visits, after.jobs[k], v) && StaysOn(after, visits, v) {
      FiresAtFirstTick(after, visits, start, k, after.jobs[k], IntervalOf(form), start + DelayOf(form), v);
    }
  }

  /** Over any run that follows, each tick runs a recurring monotonic job at most once, and any two ticks that run it
      are at least its interval apart. */
  lemma {:induction false} RunsAreAnIntervalApart(t: Table, tag: string, target: Target, ms: uint32, start: nat,
                                                  wall: Option<uint32>,
                                                  visits: seq<Visit>, a: nat, b: nat)
    requires Sound(t) && Scheduled(t, tag, target, EveryMonotonic(ms), Now(ClockAt(start), wall)).1.Some?
    requires InOrder(visits, start) && a < b < |visits|
    ensures var (after, id) := Scheduled(t, tag, target, EveryMonotonic(ms), Now(ClockAt(start), wall));
            var ran := Visited(after, visits).1;
            && TimerRuns(ran[a], id.value) <= 1
            && (TimerRuns(ran[a], id.value) > 0 && TimerRuns(ran[b], id.value) > 0 ==> visits[b].time >= visits[a].time + ms)
  {
    var k := ScheduledTimer(t, tag, target, EveryMonotonic(ms), start, wall);
    var (after, id) := Scheduled(t, tag, target, EveryMonotonic(ms), Now(ClockAt(start), wall));
    RunsAreApart(after, visits, start, id.value, ms, start + ms, a, b);
  }
}
