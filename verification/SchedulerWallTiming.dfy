/** Wall-clock jobs over whole runs of ticks: dates and intervals by readings that do not go back, from an unset clock on. */
module SchedulerWallTiming {
  import opened Common
  import opened SchedulerTable
  import opened SchedulerInvariants
  import opened SchedulerRuns
  import opened SchedulerTiming

  // ----- the readings of a run

  /** Readings do not go back, and an interval added to one does not wrap. */
  predicate ReadingsRise(visits: seq<Visit>, interval: uint32) {
    && (forall v :: 0 <= v < |visits| && visits[v].wall.Some? ==> visits[v].wall.value + interval < CLOCK_MODULUS)
    && (forall u, v :: 0 <= u < v < |visits| && visits[u].wall.Some? && visits[v].wall.Some? ==>
          visits[u].wall.value <= visits[v].wall.value)
  }

  /** Nothing is scheduled but by the schedule forms. */
  predicate TimedVisits(visits: seq<Visit>) {
    forall v :: 0 <= v < |visits| ==> TimedPlan(visits[v].plan) && TimedOps(visits[v].after)
  }

  lemma {:induction false} OtherVisits(visits: seq<Visit>, interval: uint32)
    requires visits != [] && ReadingsRise(visits, interval) && TimedVisits(visits)
    ensures ReadingsRise(visits[1..], interval) && TimedVisits(visits[1..])
    ensures forall v :: 0 <= v < |visits| - 1 ==> visits[1..][v] == visits[v + 1]
  {
  }

  // ----- one wall-clock job through a run

  /** A job by its id and target: what is loaded meanwhile may take over an id, but never a callback's. */
  predicate IsAlarm(job: Job, id: uint32, callback: Option<nat>) {
    job.active && job.id == id && job.clock == Wall && job.callback == callback
  }

  function AlarmRuns(ran: seq<Job>, id: uint32, callback: Option<nat>): nat {
    if ran == [] then 0 else (if IsAlarm(ran[0], id, callback) then 1 else 0) + AlarmRuns(ran[1..], id, callback)
  }

  /** While there is power, the job, if it is still there, has this interval and is due at `passed` in the slots before
      slot i, and at `ahead` from there on; a date of 2^32 says that it is gone. */
  ghost predicate RingsAt(t: Table, i: nat, id: uint32, callback: Option<nat>, interval: uint32, passed: nat, ahead: nat) {
    && Sound(t) && id < t.nextId && (callback.None? ==> t.ready)
    && (t.on ==> forall k :: 0 <= k < MAX_JOBS && IsAlarm(t.jobs[k], id, callback) ==>
          t.jobs[k].interval == interval && t.jobs[k].due == if k < i then passed else ahead)
  }

  /** An interval that has not begun has no date yet. */
  predicate Dated(interval: uint32, due: nat) {
    due != 0 || interval == 0
  }

  /** The date after a tick that does not run the job. */
  function DueAfter(wall: Option<uint32>, interval: uint32, due: nat): nat {
    if wall.Some? && !Dated(interval, due) then wall.value + interval else due
  }

  /** The date after a tick that does: never one a reading can come to, when it is not to run again. */
  function NextDate(wall: uint32, interval: uint32): nat {
    if interval == 0 then CLOCK_MODULUS else wall + interval
  }

  lemma {:induction false} OpKeepsAlarm(t: Table, op: Op, i: nat, id: uint32, callback: Option<nat>, interval: uint32,
                                        passed: nat, ahead: nat)
    requires RingsAt(t, i, id, callback, interval, passed, ahead) && (op.Add? ==> Timed(op.request))
    ensures RingsAt(Applied(t, op), i, id, callback, interval, passed, ahead) && (Applied(t, op).on ==> t.on)
  {
    ApplyKeepsSound(t, op);
    if op.Mount? && !t.ready {
      if t.file.Holds? {
        LoadFillsFreeSlots(t.(ready := true), t.file.records);
      }
    } else {
      ApplyOnlyYounger(t, op, id);
    }
  }

  lemma {:induction false} OpsKeepAlarm(t: Table, ops: seq<Op>, i: nat, id: uint32, callback: Option<nat>, interval: uint32,
                                        passed: nat, ahead: nat)
    requires RingsAt(t, i, id, callback, interval, passed, ahead) && TimedOps(ops)
    ensures RingsAt(AppliedAll(t, ops), i, id, callback, interval, passed, ahead) && (AppliedAll(t, ops).on ==> t.on)
    decreases |ops|
  {
    if ops != [] {
      assert ops[0] in ops;
      OpKeepsAlarm(t, ops[0], i, id, callback, interval, passed, ahead);
      OpsKeepAlarm(Applied(t, ops[0]), ops[1..], i, id, callback, interval, passed, ahead);
    }
  }

  /** A slot with another job keeps the date. */
  lemma {:induction false} FireOther(t: Table, i: nat, now: Now, last: uint32, id: uint32, callback: Option<nat>,
                                     interval: uint32, passed: nat, ahead: nat)
    requires i < MAX_JOBS && RingsAt(t, i, id, callback, interval, passed, ahead) && !IsAlarm(t.jobs[i], id, callback)
    ensures RingsAt(Fired(t, i, now, last).0, i + 1, id, callback, interval, passed, ahead)
  {
    var fired := Fired(t, i, now, last).0;
    FireKeepsSound(t, i, now, last);
    FireElsewhere(t, i, now, last);
    assert !IsAlarm(fired.jobs[i], id, callback);
  }

  /** What becomes of the job's own slot. */
  lemma {:induction false} OwnSlot(t: Table, i: nat, now: Now, last: uint32, id: uint32, callback: Option<nat>)
    requires Sound(t) && i < MAX_JOBS && t.on && id <= last && IsAlarm(t.jobs[i], id, callback)
    requires now.wall.Some? ==> now.wall.value + t.jobs[i].interval < CLOCK_MODULUS
    ensures var (fired, run) := Fired(t, i, now, last);
            var job, after := t.jobs[i], fired.jobs[i];
            && (run.Some? ==> && run == Some(job) && now.wall.Some? && Dated(job.interval, job.due) && job.due <= now.wall.value
                              && (IsAlarm(after, id, callback) ==> after.interval == job.interval && job.interval != 0
                                                                   && after.due == NextDate(now.wall.value, job.interval)))
            && (run.None? && fired.on ==> (IsAlarm(after, id, callback) ==>
                              after.interval == job.interval && after.due == DueAfter(now.wall, job.interval, job.due)))
  {
  }

  /** A slot that fires runs the job only at or after its date, which it then sets anew; if it does not, an interval that
      has not begun begins. */
  lemma {:induction false} FireAlarm(t: Table, i: nat, now: Now, last: uint32, id: uint32, callback: Option<nat>,
                                     interval: uint32, due: nat)
    requires i < MAX_JOBS && t.on && id <= last && (now.wall.Some? ==> now.wall.value + interval < CLOCK_MODULUS)
    requires RingsAt(t, i, id, callback, interval, DueAfter(now.wall, interval, due), due)
    ensures var (fired, run) := Fired(t, i, now, last);
            if run.Some? && IsAlarm(run.value, id, callback)
            then && now.wall.Some? && Dated(interval, due) && due <= now.wall.value
                 && var next := NextDate(now.wall.value, interval);
                    RingsAt(fired, i + 1, id, callback, interval, next, next)
            else RingsAt(fired, i + 1, id, callback, interval, DueAfter(now.wall, interval, due), due)
  {
    if IsAlarm(t.jobs[i], id, callback) {
      FireKeepsSound(t, i, now, last);
      FireElsewhere(t, i, now, last);
      OwnSlot(t, i, now, last, id, callback);
      OnlyThere(t, i, Fired(t, i, now, last).0, id, callback);
    } else {
      FireElsewhere(t, i, now, last);
      FireOther(t, i, now, last, id, callback, interval, DueAfter(now.wall, interval, due), due);
    }
  }

  lemma {:induction false} OnlyThere(t: Table, i: nat, after: Table, id: uint32, callback: Option<nat>)
    requires Sound(t) && i < MAX_JOBS && IsAlarm(t.jobs[i], id, callback) && |after.jobs| == MAX_JOBS
    requires forall k :: 0 <= k < MAX_JOBS && k != i ==> after.jobs[k] == t.jobs[k]
    ensures forall k :: 0 <= k < MAX_JOBS && k != i ==> !IsAlarm(after.jobs[k], id, callback)
  {
  }

  /** A tick runs the job not at all, or once and not before its date. */
  lemma {:induction false} TickAlarm(t: Table, i: nat, now: Now, last: uint32, plan: seq<seq<Op>>, id: uint32,
                                     callback: Option<nat>, interval: uint32, due: nat)
    requires i <= MAX_JOBS && id <= last && TimedPlan(plan)
    requires now.wall.Some? ==> now.wall.value + interval < CLOCK_MODULUS
    requires RingsAt(t, i, id, callback, interval, DueAfter(now.wall, interval, due), due)
    ensures TickedOn(t, now, Ticked(t, i, now, last, plan), id, callback, interval, due)
    decreases MAX_JOBS - i, 1
  {
    if i < MAX_JOBS && t.on {
      var (fired, run) := Fired(t, i, now, last);
      FireAlarm(t, i, now, last, id, callback, interval, due);
      if run.None? {
        TickAlarm(fired, i + 1, now, last, plan, id, callback, interval, due);
      } else {
        assert plan != [] ==> plan[0] in plan;
        TickUnlockedAlarm(t, fired, run.value, i, now, last, plan, id, callback, interval, due);
      }
    }
  }

  /** The outcome of a tick for the job. */
  ghost predicate TickedOn(t: Table, now: Now, outcome: (Table, seq<Job>), id: uint32, callback: Option<nat>,
                           interval: uint32, due: nat)
  {
    var (after, ran) := outcome;
    && (after.on ==> t.on)
    && (|| (AlarmRuns(ran, id, callback) == 0
            && var d := DueAfter(now.wall, interval, due); RingsAt(after, 0, id, callback, interval, d, d))
        || (AlarmRuns(ran, id, callback) == 1 && now.wall.Some? && Dated(interval, due) && due <= now.wall.value
            && var d := NextDate(now.wall.value, interval); RingsAt(after, 0, id, callback, interval, d, d)))
  }

  lemma {:induction false} TickUnlockedAlarm(t: Table, fired: Table, run: Job, i: nat, now: Now, last: uint32,
                                             plan: seq<seq<Op>>, id: uint32, callback: Option<nat>, interval: uint32, due: nat)
    requires |t.jobs| == MAX_JOBS && i < MAX_JOBS && t.on && id <= last && TimedPlan(plan)
    requires Fired(t, i, now, last) == (fired, Some(run))
    requires now.wall.Some? ==> now.wall.value + interval < CLOCK_MODULUS
    requires IsAlarm(run, id, callback) ==>
               && now.wall.Some? && Dated(interval, due) && due <= now.wall.value
               && var next := NextDate(now.wall.value, interval);
                  RingsAt(fired, i + 1, id, callback, interval, next, next)
    requires !IsAlarm(run, id, callback) ==>
               RingsAt(fired, i + 1, id, callback, interval, DueAfter(now.wall, interval, due), due)
    ensures TickedOn(t, now, Ticked(t, i, now, last, plan), id, callback, interval, due)
    decreases MAX_JOBS - i, 0
  {
    var during, later := if plan == [] then [] else plan[0], if plan == [] then [] else plan[1..];
    var next := if IsAlarm(run, id, callback) then NextDate(now.wall.value, interval) else due;
    OpsKeepAlarm(fired, during, i + 1, id, callback, interval, DueAfter(now.wall, interval, next), next);
    var unlocked := AppliedAll(fired, during);
    TickAlarm(unlocked, i + 1, now, last, later, id, callback, interval, next);
    var more := Ticked(unlocked, i + 1, now, last, later).1;
    assert ([run] + more)[1..] == more;
  }

  // ----- over a run

  lemma {:induction false} VisitAlarm(t: Table, v: Visit, id: uint32, callback: Option<nat>, interval: uint32, due: nat)
    requires RingsAt(t, 0, id, callback, interval, due, due) && TimedPlan(v.plan) && TimedOps(v.after)
    requires v.wall.Some? ==> v.wall.value + interval < CLOCK_MODULUS
    ensures var (ticked, ran) := WholeTick(t, v.retry, Reading(v), v.plan);
            TickedOn(t, Reading(v), (AppliedAll(ticked, v.after), ran), id, callback, interval, due)
  {
    if v.retry.Some? {
      OpKeepsAlarm(t, Mount(v.retry.value), 0, id, callback, interval, due, due);
    }
    var ready := Retried(t, v.retry);
    TickAlarm(ready, 0, Reading(v), LastId(ready), v.plan, id, callback, interval, due);
    var (ticked, ran) := WholeTick(t, v.retry, Reading(v), v.plan);
    var d := if AlarmRuns(ran, id, callback) == 0 then DueAfter(v.wall, interval, due) else NextDate(v.wall.value, interval);
    OpsKeepAlarm(ticked, v.after, 0, id, callback, interval, d, d);
  }

  function FirstReading(visits: seq<Visit>): Option<uint32> {
    if visits == [] then None else if visits[0].wall.Some? then visits[0].wall else FirstReading(visits[1..])
  }

  /** When the job is to run: at its date, or an interval after the first reading if it has none yet. */
  function RingDate(visits: seq<Visit>, interval: uint32, due: nat): nat {
    if Dated(interval, due) then due
    else if FirstReading(visits).Some? then FirstReading(visits).value + interval else CLOCK_MODULUS
  }

  /** No tick that reads less than the job's date, or nothing, runs it. */
  lemma {:induction false} NeverBeforeDate(t: Table, visits: seq<Visit>, id: uint32, callback: Option<nat>, interval: uint32,
                                           due: nat, v: nat)
    requires RingsAt(t, 0, id, callback, interval, due, due) && ReadingsRise(visits, interval) && TimedVisits(visits)
    requires v < |visits| && (visits[v].wall.Some? ==> visits[v].wall.value < RingDate(visits, interval, due))
    ensures AlarmRuns(Visited(t, visits).1[v], id, callback) == 0
    decreases |visits|
  {
    var next := FirstVisit(t, visits);
    OtherVisits(visits, interval);
    VisitAlarm(t, visits[0], id, callback, interval, due);
    if v > 0 {
      var ran := AlarmRuns(Visited(t, visits).1[0], id, callback);
      var d := if ran == 0 then DueAfter(visits[0].wall, interval, due) else NextDate(visits[0].wall.value, interval);
      NeverBeforeDate(next, visits[1..], id, callback, interval, d, v - 1);
    }
  }

  /** One tick runs the job at most once; two ticks that run it read at least its interval apart, and it has one. */
  lemma {:induction false} ReadingsApart(t: Table, visits: seq<Visit>, id: uint32, callback: Option<nat>, interval: uint32,
                                         due: nat, a: nat, b: nat)
    requires RingsAt(t, 0, id, callback, interval, due, due) && ReadingsRise(visits, interval) && TimedVisits(visits)
    requires a < b < |visits|
    ensures AlarmRuns(Visited(t, visits).1[a], id, callback) <= 1
    ensures AlarmRuns(Visited(t, visits).1[a], id, callback) > 0 && AlarmRuns(Visited(t, visits).1[b], id, callback) > 0 ==>
              && interval != 0 && visits[a].wall.Some? && visits[b].wall.Some?
              && visits[b].wall.value >= visits[a].wall.value + interval
    decreases |visits|
  {
    var next := FirstVisit(t, visits);
    OtherVisits(visits, interval);
    VisitAlarm(t, visits[0], id, callback, interval, due);
    var ran := AlarmRuns(Visited(t, visits).1[0], id, callback);
    var d := if ran == 0 then DueAfter(visits[0].wall, interval, due) else NextDate(visits[0].wall.value, interval);
    if a > 0 {
      ReadingsApart(next, visits[1..], id, callback, interval, d, a - 1, b - 1);
    } else if ran > 0 && (visits[b].wall.Some? ==> visits[b].wall.value < d) {
      NeverBeforeDate(next, visits[1..], id, callback, interval, d, b - 1);
    }
  }

  /** Visit v is the first to read the date or more. */
  predicate FirstToRead(visits: seq<Visit>, date: nat, v: nat) {
    && v < |visits| && visits[v].wall.Some? && date <= visits[v].wall.value
    && forall u :: 0 <= u < v ==> visits[u].wall.Some? ==> visits[u].wall.value < date
  }

  lemma {:induction false} VisitMeets(t: Table, v: Visit, k: nat, job: Job)
    requires Sound(t) && Holding(t, k, job) && SparesInPlan(v.plan, job)
    ensures Reaches(t, Reading(v), k, job, WholeTick(t, v.retry, Reading(v), v.plan).0,
                    WholeTick(t, v.retry, Reading(v), v.plan).1, true)
  {
    if v.retry.Some? {
      MountLeaves(t, v.retry.value, k, job);
      ApplyKeepsSound(t, Mount(v.retry.value));
    }
    var ready := Retried(t, v.retry);
    TickReaches(ready, 0, Reading(v), LastId(ready), v.plan, k, job);
  }

  lemma {:induction false} BegunIsLeftAlone(visits: seq<Visit>, job: Job, now: Now, v: nat)
    requires 0 < v < |visits| && LeftAlone(visits, job, v)
    ensures LeftAlone(visits[1..], Begun(job, now), v - 1) && SparesAll(visits[0].after, Begun(job, now))
  {
    var later := Begun(job, now);
    forall u | 0 <= u <= v ensures SparesInPlan(visits[u].plan, later) {
      BegunIsSpared(visits[u].plan, job, now);
    }
    forall u | 0 <= u < v ensures SparesAll(visits[u].after, later) {
      assert SparesAll(visits[u].after, job);
      forall op | op in visits[u].after ensures Spares(op, later) {
        assert Spares(op, job);
      }
    }
    assert forall u :: 0 <= u < v ==> visits[1..][u] == visits[u + 1];
  }

  /** The job and its date after a first visit that comes too early. */
  lemma {:induction false} StillAhead(t: Table, visits: seq<Visit>, next: Table, k: nat, job: Job, later: Job, date: nat, v: nat)
    requires RingsAt(t, 0, job.id, job.callback, job.interval, job.due, job.due) && job.clock == Wall
    requires Holding(t, k, job) && Savable(t, job) && ReadingsRise(visits, job.interval) && TimedVisits(visits)
    requires date == RingDate(visits, job.interval, job.due) && FirstToRead(visits, date, v) && v > 0
    requires LeftAlone(visits, job, v) && later == Begun(job, Reading(visits[0]))
    requires next == AppliedAll(WholeTick(t, visits[0].retry, Reading(visits[0]), visits[0].plan).0, visits[0].after)
    requires WholeTick(t, visits[0].retry, Reading(visits[0]), visits[0].plan).0.on
    ensures RingsAt(next, 0, job.id, job.callback, job.interval, later.due, later.due)
    ensures Holding(next, k, later) && Savable(next, later)
    ensures date == RingDate(visits[1..], job.interval, later.due)
  {
    var first := visits[0];
    VisitMeets(t, first, k, job);
    VisitAlarm(t, first, job.id, job.callback, job.interval, job.due);
    NoRunYet(t, visits, job, date, v);
    BegunIsLeftAlone(visits, job, Reading(first), v);
    OpsLeave(WholeTick(t, first.retry, Reading(first), first.plan).0, first.after, k, later);
  }

  lemma {:induction false} FirstToReadLater(visits: seq<Visit>, date: nat, v: nat)
    requires FirstToRead(visits, date, v) && v > 0
    ensures FirstToRead(visits[1..], date, v - 1)
  {
  }

  /** Left in the table, and its removal saved where it must be, the job is run by the first tick to read its date. */
  lemma {:induction false} RingsAtFirstTick(t: Table, visits: seq<Visit>, k: nat, job: Job, date: nat, v: nat)
    requires RingsAt(t, 0, job.id, job.callback, job.interval, job.due, job.due) && job.clock == Wall
    requires Holding(t, k, job) && Savable(t, job) && ReadingsRise(visits, job.interval) && TimedVisits(visits)
    requires date == RingDate(visits, job.interval, job.due) && FirstToRead(visits, date, v)
    requires LeftAlone(visits, job, v) && StaysOn(t, visits, v)
    ensures job.(due := date) in Visited(t, visits).1[v]
    decreases |visits|
  {
    var next := FirstVisit(t, visits);
    if v == 0 {
      VisitMeets(t, visits[0], k, job);
    } else {
      var later := Begun(job, Reading(visits[0]));
      StillAhead(t, visits, next, k, job, later, date, v);
      BegunIsLeftAlone(visits, job, Reading(visits[0]), v);
      FirstToReadLater(visits, date, v);
      OtherVisits(visits, job.interval);
      RingsAtFirstTick(next, visits[1..], k, later, date, v - 1);
    }
  }

  lemma {:induction false} NoRunYet(t: Table, visits: seq<Visit>, job: Job, date: nat, v: nat)
    requires RingsAt(t, 0, job.id, job.callback, job.interval, job.due, job.due)
    requires ReadingsRise(visits, job.interval) && TimedVisits(visits)
    requires date == RingDate(visits, job.interval, job.due) && FirstToRead(visits, date, v) && v > 0
    ensures AlarmRuns(Visited(t, visits).1[0], job.id, job.callback) == 0
  {
    NeverBeforeDate(t, visits, job.id, job.callback, job.interval, job.due, 0);
  }

  // ----- what the schedule forms promise

  predicate IsOnWall(form: Form) {
    form.AtWall? || form.EveryWall?
  }

  function SecondsOf(form: Form): uint32 {
    match form case EveryWall(seconds) => seconds case _ => 0
  }

  function TargetCallback(target: Target): Option<nat> {
    match target case Command(_, _) => None case Callback(id) => Some(id)
  }

  /** The date a form stands for: the epoch asked for, or an interval after the first reading from scheduling on. */
  function DateOf(form: Form, wall: Option<uint32>, visits: seq<Visit>): nat {
    match form
    case AtWall(epoch) => epoch
    case EveryWall(seconds) =>
      if wall.Some? then wall.value + seconds
      else if FirstReading(visits).Some? then FirstReading(visits).value + seconds else CLOCK_MODULUS
    case _ => 0
  }

  /** The clock is far enough from wrapping when the job is scheduled, and at every tick. */
  predicate ReadsWell(form: Form, wall: Option<uint32>, visits: seq<Visit>) {
    (wall.Some? ==> wall.value + SecondsOf(form) < CLOCK_MODULUS) && ReadingsRise(visits, SecondsOf(form)) && TimedVisits(visits)
  }

  lemma {:induction false} ScheduledAlarm(t: Table, tag: string, target: Target, form: Form, now: Now, visits: seq<Visit>)
    returns (k: nat)
    requires Sound(t) && IsOnWall(form) && Scheduled(t, tag, target, form, now).1.Some?
    requires ReadsWell(form, now.wall, visits)
    ensures var (after, id) := Scheduled(t, tag, target, form, now);
            && k < MAX_JOBS && Holding(after, k, after.jobs[k]) && IsAlarm(after.jobs[k], id.value, TargetCallback(target))
            && after.jobs[k].interval == SecondsOf(form)
            && RingDate(visits, SecondsOf(form), after.jobs[k].due) == DateOf(form, now.wall, visits)
            && RingsAt(after, 0, id.value, TargetCallback(target), SecondsOf(form), after.jobs[k].due, after.jobs[k].due)
  {
    ScheduleKeepsSound(t, tag, target, form, now);
    k := FirstFree(t.jobs);
    var (after, id) := Scheduled(t, tag, target, form, now);
    assert Holding(after, k, after.jobs[k]) && IsAlarm(after.jobs[k], id.value, TargetCallback(target));
    OnlyThere(after, k, after, id.value, TargetCallback(target));
  }

  /** Over any run that follows, no tick runs a dated or recurring job before its date, nor while the clock is unset. */
  lemma {:induction false} ScheduledDateIsKept(t: Table, tag: string, target: Target, form: Form, now: Now,
                                               visits: seq<Visit>, v: nat)
    requires Sound(t) && IsOnWall(form) && Scheduled(t, tag, target, form, now).1.Some?
    requires ReadsWell(form, now.wall, visits) && v < |visits|
    requires visits[v].wall.Some? ==> visits[v].wall.value < DateOf(form, now.wall, visits)
    ensures var (after, id) := Scheduled(t, tag, target, form, now);
            AlarmRuns(Visited(after, visits).1[v], id.value, TargetCallback(target)) == 0
  {
    var k := ScheduledAlarm(t, tag, target, form, now, visits);
    var (after, id) := Scheduled(t, tag, target, form, now);
    NeverBeforeDate(after, visits, id.value, TargetCallback(target), SecondsOf(form), after.jobs[k].due, v);
  }

  /**
   * The first tick to read the date or more, if it finds the job still there, runs it; where the job is a persisted
   * one-shot, provided no write fails any more.
   */
  lemma {:induction false} ScheduledDateRings(t: Table, tag: string, target: Target, form: Form, now: Now,
                                              visits: seq<Visit>, v: nat)
    returns (k: nat)
    requires Sound(t) && IsOnWall(form) && Scheduled(t, tag, target, form, now).1.Some?
    requires ReadsWell(form, now.wall, visits) && FirstToRead(visits, DateOf(form, now.wall, visits), v)
    ensures var (after, id) := Scheduled(t, tag, target, form, now);
            && k < MAX_JOBS && IsAlarm(after.jobs[k], id.value, TargetCallback(target))
            && (LeftAlone(visits, after.jobs[k], v) && StaysOn(after, visits, v) && Savable(after, after.jobs[k]) ==>
                  AlarmRuns(Visited(after, visits).1[v], id.value, TargetCallback(target)) > 0)
  {
    k := ScheduledAlarm(t, tag, target, form, now, visits);
    var (after, id) := Scheduled(t, tag, target, form, now);
    var job, date := after.jobs[k], DateOf(form, now.wall, visits);
    if LeftAlone(visits, job, v) && StaysOn(after, visits, v) && Savable(after, job) {
      RingsAtFirstTick(after, visits, k, job, date, v);
      RunIsCounted(Visited(after, visits).1[v], job.(due := date), id.value, TargetCallback(target));
    }
  }

  lemma {:induction false} RunIsCounted(ran: seq<Job>, job: Job, id: uint32, callback: Option<nat>)
    requires job in ran && IsAlarm(job, id, callback)
    ensures AlarmRuns(ran, id, callback) > 0
    decreases |ran|
  {
    if ran[0] != job {
      RunIsCounted(ran[1..], job, id, callback);
    }
  }

  /** Over any run that follows, each tick runs the job at most once. Any two ticks that run a recurring one read at least
      its interval apart; a dated one is run by one tick at most. */
  lemma {:induction false} RunsAreSecondsApart(t: Table, tag: string, target: Target, form: Form, now: Now,
                                               visits: seq<Visit>, a: nat, b: nat)
    requires Sound(t) && IsOnWall(form) && Scheduled(t, tag, target, form, now).1.Some?
    requires ReadsWell(form, now.wall, visits) && a < b < |visits|
    ensures var (after, id) := Scheduled(t, tag, target, form, now);
            var ran, callback := Visited(after, visits).1, TargetCallback(target);
            && AlarmRuns(ran[a], id.value, callback) <= 1
            && (AlarmRuns(ran[a], id.value, callback) > 0 && AlarmRuns(ran[b], id.value, callback) > 0 ==>
                  form.EveryWall? && visits[a].wall.Some? && visits[b].wall.Some?
                  && visits[b].wall.value >= visits[a].wall.value + form.seconds)
  {
    var k := ScheduledAlarm(t, tag, target, form, now, visits);
    var (after, id) := Scheduled(t, tag, target, form, now);
    ReadingsApart(after, visits, id.value, TargetCallback(target), SecondsOf(form), after.jobs[k].due, a, b);
  }
}
