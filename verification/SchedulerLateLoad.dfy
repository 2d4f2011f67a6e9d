/** Ticks during which storage may come up: what they never run, and exactly when they can run one id twice. */
module SchedulerLateLoad {
  import opened Common
  import opened SchedulerTable
  import opened SchedulerInvariants
  import opened SchedulerRuns

  // ----- whatever happens: only old jobs that are due, and none added meanwhile

  lemma {:induction false} TickRunsOldAndDue(t: Table, i: nat, now: Now, last: uint32, plan: seq<seq<Op>>)
    requires |t.jobs| == MAX_JOBS && i <= MAX_JOBS
    ensures forall job :: job in Ticked(t, i, now, last, plan).1 ==> job.active && job.id <= last && !Waits(job, now)
    decreases MAX_JOBS - i
  {
    if i < MAX_JOBS && t.on {
      var (fired, run) := Fired(t, i, now, last);
      if run.None? {
        TickRunsOldAndDue(fired, i + 1, now, last, plan);
      } else {
        var during := if plan == [] then [] else plan[0];
        TickRunsOldAndDue(AppliedAll(fired, during), i + 1, now, last, if plan == [] then [] else plan[1..]);
      }
    }
  }

  /** The ids handed out by these operations. */
  function Granted(t: Table, ops: seq<Op>): set<uint32>
    requires |t.jobs| == MAX_JOBS
    decreases |ops|
  {
    if ops == [] then {}
    else
      (if ops[0].Add? && Added(t, ops[0].request).1.Some? then {Added(t, ops[0].request).1.value} else {})
      + Granted(Applied(t, ops[0]), ops[1..])
  }

  /** The ids handed out while a tick has the table unlocked. */
  function GrantedMeanwhile(t: Table, i: nat, now: Now, last: uint32, plan: seq<seq<Op>>): set<uint32>
    requires |t.jobs| == MAX_JOBS && i <= MAX_JOBS
    decreases |t.jobs| - i
  {
    if i == MAX_JOBS || !t.on then {}
    else
      var (fired, run) := Fired(t, i, now, last);
      if run.None? then GrantedMeanwhile(fired, i + 1, now, last, plan)
      else
        var during := if plan == [] then [] else plan[0];
        Granted(fired, during)
        + GrantedMeanwhile(AppliedAll(fired, during), i + 1, now, last, if plan == [] then [] else plan[1..])
  }

  lemma {:induction false} LoadKeepsCounting(t: Table, records: seq<Stored>)
    ensures LoadedRecords(t, records).nextId >= t.nextId
    decreases |records|
  {
    if records != [] {
      LoadKeepsCounting(LoadedRecord(t, records[0]), records[1..]);
    }
  }

  lemma {:induction false} OpKeepsCounting(t: Table, op: Op)
    requires |t.jobs| == MAX_JOBS
    ensures Applied(t, op).nextId >= t.nextId
  {
    if op.Mount? && t.file.Holds? {
      LoadKeepsCounting(t.(ready := true), t.file.records);
    }
  }

  lemma {:induction false} GrantedAreYounger(t: Table, ops: seq<Op>, last: uint32)
    requires |t.jobs| == MAX_JOBS && t.nextId > last
    ensures AppliedAll(t, ops).nextId > last && forall id :: id in Granted(t, ops) ==> id > last
    decreases |ops|
  {
    if ops != [] {
      OpKeepsCounting(t, ops[0]);
      GrantedAreYounger(Applied(t, ops[0]), ops[1..], last);
    }
  }

  lemma {:induction false} GrantedMeanwhileAreYounger(t: Table, i: nat, now: Now, last: uint32, plan: seq<seq<Op>>)
    requires |t.jobs| == MAX_JOBS && i <= MAX_JOBS && t.nextId > last
    ensures forall id :: id in GrantedMeanwhile(t, i, now, last, plan) ==> id > last
    decreases MAX_JOBS - i
  {
    if i < MAX_JOBS && t.on {
      var (fired, run) := Fired(t, i, now, last);
      if run.None? {
        GrantedMeanwhileAreYounger(fired, i + 1, now, last, plan);
      } else {
        var during := if plan == [] then [] else plan[0];
        GrantedAreYounger(fired, during, last);
        GrantedMeanwhileAreYounger(AppliedAll(fired, during), i + 1, now, last, if plan == [] then [] else plan[1..]);
      }
    }
  }

  /** Whatever callbacks and other tasks do, storage coming up included: a tick runs only jobs that are due and no younger
      than the newest at its start, so none that was added while it ran. */
  lemma {:induction false} NoneAddedMeanwhileRuns(t: Table, now: Now, plan: seq<seq<Op>>, job: Job)
    requires |t.jobs| == MAX_JOBS && t.nextId > 0 && job in Ticked(t, 0, now, LastId(t), plan).1
    ensures job.active && job.id < t.nextId && !Waits(job, now)
    ensures job.id !in GrantedMeanwhile(t, 0, now, LastId(t), plan)
  {
    TickRunsOldAndDue(t, 0, now, LastId(t), plan);
    GrantedMeanwhileAreYounger(t, 0, now, LastId(t), plan);
  }

  // ----- when one id can run twice

  predicate RunsOnce(ran: seq<Job>) {
    forall r, q :: 0 <= r < q < |ran| ==> ran[r].id != ran[q].id
  }

  predicate RecordDue(r: Stored, now: Now) {
    now.wall.Some? && !(r.due == 0 && r.interval != 0) && r.due <= now.wall.value
  }

  /** Some coming write is reported done before any cuts the power. */
  predicate CanSave(writes: seq<WriteOutcome>) {
    writes == [] || writes[0].Written? || (writes[0].Failed? && CanSave(writes[1..]))
  }

  /** Loaded now, this record would run at once: a one-shot only if its removal can be saved. */
  predicate Replays(t: Table, r: Stored, now: Now) {
    Readable(r) && RecordDue(r, now) && (r.interval == 0 ==> CanSave(t.writes))
  }

  /** The job in slot k is due, there are slots after it, and record m would run under its id. */
  predicate Recalls(t: Table, k: nat, m: nat, now: Now, last: uint32)
    requires |t.jobs| == MAX_JOBS
  {
    && t.file.Holds? && m < |t.file.records| && k < MAX_JOBS - 1
    && t.jobs[k].active && t.jobs[k].id <= last && !Waits(t.jobs[k], now)
    && t.file.records[m].id == t.jobs[k].id && Replays(t, t.file.records[m], now)
  }

  /** The file holds a due record under the id of a job that is due from slot i on. */
  ghost predicate Hazard(t: Table, i: nat, now: Now, last: uint32)
    requires |t.jobs| == MAX_JOBS
  {
    exists k: nat, m: nat :: i <= k && Recalls(t, k, m, now, last)
  }

  // Without the hazard no id runs twice.

  /** Power is on and a save is still to come. */
  predicate Able(t: Table) {
    t.on && CanSave(t.writes)
  }

  lemma {:induction false} OpKeepsUnable(t: Table, op: Op)
    requires |t.jobs| == MAX_JOBS && Able(Applied(t, op))
    ensures Able(t)
  {
  }

  lemma {:induction false} OpsKeepUnable(t: Table, ops: seq<Op>)
    requires |t.jobs| == MAX_JOBS && Able(AppliedAll(t, ops))
    ensures Able(t)
    decreases |ops|
  {
    if ops != [] {
      OpsKeepUnable(Applied(t, ops[0]), ops[1..]);
      OpKeepsUnable(t, ops[0]);
    }
  }

  lemma {:induction false} FireNeedsSave(t: Table, i: nat, now: Now, last: uint32)
    requires i < |t.jobs| && t.on
    ensures var (fired, run) := Fired(t, i, now, last);
            && (Able(fired) ==> Able(t))
            && (run.Some? && Persists(run.value) && run.value.interval == 0 ==> Able(t))
  {
  }

  /** A persisted one-shot runs only where a save could still be had. */
  lemma {:induction false} OneShotsAreSaved(t: Table, i: nat, now: Now, last: uint32, plan: seq<seq<Op>>)
    requires |t.jobs| == MAX_JOBS && i <= MAX_JOBS
    ensures forall job :: job in Ticked(t, i, now, last, plan).1 && Persists(job) && job.interval == 0 ==> Able(t)
    decreases MAX_JOBS - i
  {
    if i < MAX_JOBS && t.on {
      var (fired, run) := Fired(t, i, now, last);
      FireNeedsSave(t, i, now, last);
      if run.None? {
        OneShotsAreSaved(fired, i + 1, now, last, plan);
      } else {
        var during := if plan == [] then [] else plan[0];
        var unlocked := AppliedAll(fired, during);
        OneShotsAreSaved(unlocked, i + 1, now, last, if plan == [] then [] else plan[1..]);
        if Able(unlocked) { OpsKeepUnable(fired, during); }
      }
    }
  }

  /** This job is what a load makes of record m under the record's own id. */
  predicate IsRecord(job: Job, records: seq<Stored>, m: nat) {
    && m < |records| && Readable(records[m])
    && job == Job(true, records[m].id, ParseScope(records[m].scope).value, records[m].tag, records[m].command, Wall,
                  records[m].due, records[m].interval, None)
  }

  ghost predicate FromFile(t: Table, job: Job) {
    !t.ready && t.file.Holds? && exists m: nat :: IsRecord(job, t.file.records, m)
  }

  /** What a slot may hold after operations on the unlocked table: what it held, nothing, a younger job, or, if storage
      has come up, a record of the file. */
  ghost predicate MayHold(t: Table, k: nat, job: Job, last: uint32)
    requires k < |t.jobs|
  {
    job == t.jobs[k] || job == BLANK || job.id > last || FromFile(t, job)
  }

  ghost predicate Follows(t: Table, after: Table, last: uint32) {
    && |t.jobs| == MAX_JOBS && |after.jobs| == MAX_JOBS
    && (forall k :: 0 <= k < MAX_JOBS ==> MayHold(t, k, after.jobs[k], last))
    && (t.ready ==> after.ready)
    && (!after.ready ==> after.file == t.file && after.writes == t.writes && OnlyYounger(t.jobs, after.jobs, last))
  }

  lemma {:induction false} LoadBringsRecords(t: Table, records: seq<Stored>, last: uint32)
    requires |t.jobs| == MAX_JOBS && t.nextId > last
    ensures forall k :: 0 <= k < MAX_JOBS ==>
              var job := LoadedRecords(t, records).jobs[k];
              job == t.jobs[k] || job.id > last || exists m: nat :: IsRecord(job, records, m)
    decreases |records|
  {
    if records != [] {
      var next, rest := LoadedRecord(t, records[0]), records[1..];
      LoadBringsRecords(next, rest, last);
      forall k | 0 <= k < MAX_JOBS
        ensures var job := LoadedRecords(t, records).jobs[k];
                job == t.jobs[k] || job.id > last || exists m: nat :: IsRecord(job, records, m)
      {
        var job := LoadedRecords(t, records).jobs[k];
        if m: nat :| IsRecord(job, rest, m) {
          assert IsRecord(job, records, m + 1);
        } else if job == next.jobs[k] && job != t.jobs[k] && job.id <= last {
          assert IsRecord(job, records, 0);
        }
      }
    }
  }

  lemma {:induction false} OpFollows(t: Table, op: Op, last: uint32)
    requires Sound(t) && t.nextId > last
    ensures Follows(t, Applied(t, op), last)
  {
    if op.Mount? {
      if t.file.Holds? {
        LoadBringsRecords(t.(ready := true), t.file.records, last);
      }
    } else {
      ApplyOnlyYounger(t, op, last);
    }
  }

  lemma {:induction false} FollowsInTurn(t: Table, between: Table, after: Table, last: uint32)
    requires Follows(t, between, last) && Follows(between, after, last)
    ensures Follows(t, after, last)
  {
    forall k | 0 <= k < MAX_JOBS ensures MayHold(t, k, after.jobs[k], last) {
      assert MayHold(t, k, between.jobs[k], last);
      assert MayHold(between, k, after.jobs[k], last);
    }
  }

  lemma {:induction false} OpsFollow(t: Table, ops: seq<Op>, last: uint32)
    requires Sound(t) && t.nextId > last && TimedOps(ops)
    ensures var after := AppliedAll(t, ops); Sound(after) && after.nextId > last && Follows(t, after, last)
    decreases |ops|
  {
    if ops != [] {
      var next := Applied(t, ops[0]);
      assert ops[0] in ops;
      OpFollows(t, ops[0], last);
      ApplyKeepsSound(t, ops[0]);
      OpsFollow(next, ops[1..], last);
      FollowsInTurn(t, next, AppliedAll(next, ops[1..]), last);
    }
  }

  /** This id is carried by a job that stands due from slot i on, or by a due record that may yet be loaded. */
  ghost predicate Known(t: Table, i: nat, now: Now, last: uint32, job: Job) {
    Due(t, i, now, last, job) || (FromFile(t, job) && !Waits(job, now))
  }

  lemma {:induction false} KnownEarlier(t: Table, i: nat, now: Now, last: uint32, fired: Table, unlocked: Table, job: Job)
    requires Sound(t) && i < MAX_JOBS && |fired.jobs| == MAX_JOBS && Follows(fired, unlocked, last)
    requires forall k :: i < k < MAX_JOBS ==> fired.jobs[k] == t.jobs[k]
    requires fired.ready == t.ready && (!t.ready ==> fired.file == t.file)
    requires Known(unlocked, i + 1, now, last, job)
    ensures Due(t, i + 1, now, last, job) || (FromFile(t, job) && !Waits(job, now))
  {
    if Due(unlocked, i + 1, now, last, job) {
      var k :| i + 1 <= k < |unlocked.jobs| && unlocked.jobs[k] == job;
      assert MayHold(fired, k, unlocked.jobs[k], last);
      if job == fired.jobs[k] {
        assert t.jobs[k] == job;
      }
    }
  }

  lemma {:induction false} FireKeepsStorage(t: Table, i: nat, now: Now, last: uint32)
    requires Sound(t) && i < MAX_JOBS
    ensures var fired := Fired(t, i, now, last).0;
            && fired.ready == t.ready && fired.nextId == t.nextId
            && (!t.ready ==> fired.file == t.file && fired.writes == t.writes && fired.on == t.on)
  {
  }

  lemma {:induction false} FollowsItself(t: Table, last: uint32)
    requires |t.jobs| == MAX_JOBS
    ensures Follows(t, t, last)
  {
    assert forall k :: 0 <= k < MAX_JOBS ==> MayHold(t, k, t.jobs[k], last);
  }

  /** Every job a tick runs stood due when it began or comes from the file. */
  lemma {:induction false} TickRunsKnown(t: Table, i: nat, now: Now, last: uint32, plan: seq<seq<Op>>)
    requires Sound(t) && i <= MAX_JOBS && t.nextId > last && TimedPlan(plan)
    ensures forall job :: job in Ticked(t, i, now, last, plan).1 ==> Known(t, i, now, last, job)
    decreases MAX_JOBS - i
  {
    if i < MAX_JOBS && t.on {
      var (fired, run) := Fired(t, i, now, last);
      FireKeepsSound(t, i, now, last);
      FireElsewhere(t, i, now, last);
      FireKeepsStorage(t, i, now, last);
      var during := if plan == [] then [] else plan[0];
      var unlocked := if run.None? then fired else AppliedAll(fired, during);
      var later := if run.None? then plan else if plan == [] then [] else plan[1..];
      if run.None? { FollowsItself(fired, last); } else { assert plan != [] ==> plan[0] in plan; OpsFollow(fired, during, last); }
      TickRunsKnown(unlocked, i + 1, now, last, later);
      forall job | job in Ticked(t, i, now, last, plan).1 ensures Known(t, i, now, last, job) {
        if job in Ticked(unlocked, i + 1, now, last, later).1 {
          KnownEarlier(t, i, now, last, fired, unlocked, job);
        }
      }
    }
  }

  /** The job that just ran cannot come back from the file unless the file recalls it. */
  lemma {:induction false} NotRecalled(t: Table, i: nat, now: Now, last: uint32, plan: seq<seq<Op>>, unlocked: Table,
                                       during: seq<Op>, later: seq<seq<Op>>, job: Job)
    requires Sound(t) && i < MAX_JOBS && t.on && t.nextId > last && TimedPlan(later) && TimedOps(during)
    requires !t.ready && !Hazard(t, i, now, last)
    requires Fired(t, i, now, last).1.Some? && unlocked == AppliedAll(Fired(t, i, now, last).0, during)
    requires job in Ticked(unlocked, i + 1, now, last, later).1
    ensures job.id != t.jobs[i].id
  {
    var fired := Fired(t, i, now, last).0;
    FireKeepsSound(t, i, now, last);
    FireElsewhere(t, i, now, last);
    FireKeepsStorage(t, i, now, last);
    FireNeedsSave(t, i, now, last);
    OpsFollow(fired, during, last);
    TickRunsKnown(unlocked, i + 1, now, last, later);
    KnownEarlier(t, i, now, last, fired, unlocked, job);
    if Due(t, i + 1, now, last, job) {
      var k :| i + 1 <= k < |t.jobs| && t.jobs[k] == job;
    } else if job.id == t.jobs[i].id {
      var m: nat :| IsRecord(job, t.file.records, m);
      OneShotsAreSaved(unlocked, i + 1, now, last, later);
      if Able(unlocked) { OpsKeepUnable(fired, during); }
      assert Recalls(t, i, m, now, last);
      assert false;
    }
  }

  /** What is no hazard before a slot fires is none after. */
  lemma {:induction false} HazardEarlier(t: Table, i: nat, now: Now, last: uint32, fired: Table, unlocked: Table)
    requires |t.jobs| == MAX_JOBS && i < MAX_JOBS && |fired.jobs| == MAX_JOBS && Follows(fired, unlocked, last)
    requires forall k :: i < k < MAX_JOBS ==> fired.jobs[k] == t.jobs[k]
    requires fired.file == t.file && fired.writes == t.writes && !unlocked.ready
    requires Hazard(unlocked, i + 1, now, last)
    ensures Hazard(t, i, now, last)
  {
    var k: nat, m: nat :| i + 1 <= k && Recalls(unlocked, k, m, now, last);
    assert unlocked.jobs[k] == fired.jobs[k];
    assert Recalls(t, k, m, now, last);
  }

  lemma {:induction false} RunsOnceInTurn(job: Job, more: seq<Job>)
    requires RunsOnce(more) && forall later :: later in more ==> later.id != job.id
    ensures RunsOnce([job] + more)
  {
    var ran := [job] + more;
    forall r, q | 0 <= r < q < |ran| ensures ran[r].id != ran[q].id {
      assert ran[q] == more[q - 1];
      if r > 0 { assert ran[r] == more[r - 1]; }
    }
  }

  /** Without the hazard every id runs at most once, whatever happens meanwhile. */
  lemma {:induction false} TickRunsOnceWithoutHazard(t: Table, i: nat, now: Now, last: uint32, plan: seq<seq<Op>>)
    requires Sound(t) && i <= MAX_JOBS && t.nextId > last && TimedPlan(plan)
    requires t.ready || !Hazard(t, i, now, last)
    ensures RunsOnce(Ticked(t, i, now, last, plan).1)
    decreases MAX_JOBS - i
  {
    if t.ready {
      TickRunsEachOnce(t, i, now, last, plan);
    } else if i < MAX_JOBS && t.on {
      var (fired, run) := Fired(t, i, now, last);
      FireKeepsSound(t, i, now, last);
      FireElsewhere(t, i, now, last);
      FireKeepsStorage(t, i, now, last);
      var during := if plan == [] then [] else plan[0];
      var unlocked := if run.None? then fired else AppliedAll(fired, during);
      var later := if run.None? then plan else if plan == [] then [] else plan[1..];
      if run.None? { FollowsItself(fired, last); } else { assert plan != [] ==> plan[0] in plan; OpsFollow(fired, during, last); }
      if !unlocked.ready && Hazard(unlocked, i + 1, now, last) {
        HazardEarlier(t, i, now, last, fired, unlocked);
      }
      TickRunsOnceWithoutHazard(unlocked, i + 1, now, last, later);
      if run.Some? {
        var more := Ticked(unlocked, i + 1, now, last, later).1;
        forall job | job in more ensures job.id != run.value.id {
          NotRecalled(t, i, now, last, plan, unlocked, during, later, job);
        }
        RunsOnceInTurn(run.value, more);
      }
    }
  }

  // With it, something can be done meanwhile that makes an id run twice.

  /** A file as every save leaves it: it fits the table, every record can be read, and no label occurs twice. */
  predicate WellSaved(file: JobsFile) {
    file.Holds? ==>
      && |file.records| <= MAX_JOBS
      && (forall m :: 0 <= m < |file.records| ==> Readable(file.records[m]))
      && (forall m, n :: 0 <= m < n < |file.records| ==> !SameLabel(file.records[m], file.records[n]))
  }

  predicate SameLabel(r: Stored, q: Stored) {
    r.scope == q.scope && r.tag == q.tag
  }

  predicate NothingPersisted(jobs: seq<Job>) {
    forall k :: 0 <= k < |jobs| ==> !Persists(jobs[k])
  }

  predicate TakenBy(jobs: seq<Job>, r: Stored) {
    ParseScope(r.scope).Some? && TakenLabel(jobs, ParseScope(r.scope).value, r.tag)
  }

  /** Slots below q are filled with jobs too young for this tick, the rest are free; the labels of the first m records
      are taken as far as they go, that of record m is not. */
  predicate Prepared(t: Table, records: seq<Stored>, m: nat, q: nat, last: uint32) {
    && |t.jobs| == MAX_JOBS && m < |records| <= MAX_JOBS && q < MAX_JOBS && last < t.nextId && t.on
    && (forall k :: 0 <= k < MAX_JOBS ==> (t.jobs[k].active <==> k < q))
    && (forall k :: 0 <= k < q ==> t.jobs[k].id > last)
    && (forall n :: 0 <= n < m ==> (TakenBy(t.jobs, records[n]) <==> n < q))
    && !TakenBy(t.jobs, records[m])
  }

  function Blocker(scope: Scope, tag: string): Request {
    Request(scope, tag, "", Monotonic, 0, 0, Some(0))
  }

  /** A label that differs from every one of these: by its length or somewhere along the diagonal. */
  lemma {:induction false} FreshTag(tags: seq<string>) returns (unused: string)
    requires 0 < |tags| <= MAX_LABEL_LENGTH
    ensures 0 < |unused| <= MAX_LABEL_LENGTH && unused !in tags
  {
    unused := seq(|tags|, i requires 0 <= i < |tags| => if i < |tags[i]| && tags[i][i] == 'x' then 'y' else 'x');
    forall i | 0 <= i < |tags| ensures unused != tags[i] {
      assert i < |tags[i]| ==> unused[i] != tags[i][i];
    }
  }

  /** One more slot filled, under the label of the next record or, past record m, a new one. */
  lemma {:induction false} BlockOne(t: Table, records: seq<Stored>, m: nat, q: nat, last: uint32, scope: Scope, tag: string)
    requires Prepared(t, records, m, q, last) && WellSaved(Holds(records)) && q + 1 < MAX_JOBS && t.nextId <= INT32_MAX
    requires 0 < |tag| <= MAX_LABEL_LENGTH && !TakenLabel(t.jobs, scope, tag)
    requires if q < m then ParseScope(records[q].scope) == Some(scope) && records[q].tag == tag
             else ParseScope(records[m].scope) != Some(scope) || records[m].tag != tag
    ensures var after := Applied(t, Add(Blocker(scope, tag)));
            Prepared(after, records, m, q + 1, last) && after == t.(jobs := after.jobs, nextId := t.nextId + 1)
  {
    FirstFreeIs(t.jobs, q);
    var after := Applied(t, Add(Blocker(scope, tag)));
    var job := after.jobs[q];
    assert after.jobs == t.jobs[q := job] && job.scope == scope && job.tag == tag;
    forall s: Scope, l: string ensures TakenLabel(after.jobs, s, l) <==> TakenLabel(t.jobs, s, l) || (s == scope && l == tag) {
      if k :| 0 <= k < |t.jobs| && t.jobs[k].active && t.jobs[k].scope == s && t.jobs[k].tag == l {
        assert after.jobs[k] == t.jobs[k];
      }
    }
    ScopesRead();
  }

  lemma {:induction false} ScopesRead()
    ensures forall a: string, b: string :: ParseScope(a).Some? && ParseScope(a) == ParseScope(b) ==> a == b
  {
  }

  lemma {:induction false} FirstFreeIs(jobs: seq<Job>, q: nat)
    requires q < |jobs| && !jobs[q].active && forall k :: 0 <= k < q ==> jobs[k].active
    ensures FirstFree(jobs) == q
  {
    var f := FirstFree(jobs);
    assert !(f < q) && !(q < f);
  }

  function TagsOf(jobs: seq<Job>, tag: string): (tags: seq<string>)
    ensures |tags| == |jobs| + 1
    ensures tag in tags && forall k :: 0 <= k < |jobs| ==> jobs[k].tag in tags
  {
    var tags := seq(|jobs| + 1, k requires 0 <= k <= |jobs| => if k < |jobs| then jobs[k].tag else tag);
    assert tags[|jobs|] == tag && forall k :: 0 <= k < |jobs| ==> tags[k] == jobs[k].tag;
    tags
  }

  /** Under which label to fill slot q. */
  lemma {:induction false} NextLabel(t: Table, records: seq<Stored>, m: nat, q: nat,
                                     last: uint32) returns (scope: Scope, tag: string)
    requires Prepared(t, records, m, q, last) && WellSaved(Holds(records))
    ensures 0 < |tag| <= MAX_LABEL_LENGTH && !TakenLabel(t.jobs, scope, tag)
    ensures if q < m then ParseScope(records[q].scope) == Some(scope) && records[q].tag == tag
            else ParseScope(records[m].scope) != Some(scope) || records[m].tag != tag
  {
    if q < m {
      assert Readable(records[q]);
      scope, tag := ParseScope(records[q].scope).value, records[q].tag;
      assert !TakenBy(t.jobs, records[q]);
    } else {
      scope := User;
      tag := FreshTag(TagsOf(t.jobs, records[m].tag));
    }
  }

  /** Callbacks added meanwhile can fill the slots up to f, taking the labels of the records before record m. */
  lemma {:induction false} FillSlots(t: Table, records: seq<Stored>, m: nat, q: nat, f: nat, last: uint32) returns (ops: seq<Op>)
    requires Prepared(t, records, m, q, last) && WellSaved(Holds(records))
    requires q <= f < MAX_JOBS && t.nextId + (f - q) <= INT32_MAX + 1
    ensures TimedOps(ops)
    ensures var after := AppliedAll(t, ops);
            Prepared(after, records, m, f, last) && after == t.(jobs := after.jobs, nextId := after.nextId)
    decreases f - q
  {
    ops := [];
    if q < f {
      var scope, tag := NextLabel(t, records, m, q, last);
      BlockOne(t, records, m, q, last, scope, tag);
      var op := Add(Blocker(scope, tag));
      var rest := FillSlots(Applied(t, op), records, m, q + 1, f, last);
      ops := [op] + rest;
      assert ops[1..] == rest;
    }
  }

  lemma {:induction false} AppliedInTurn(t: Table, first: seq<Op>, second: seq<Op>)
    requires |t.jobs| == MAX_JOBS
    ensures AppliedAll(t, first + second) == AppliedAll(AppliedAll(t, first), second)
    decreases |first|
  {
    if first == [] {
      assert first + second == second;
    } else {
      assert (first + second)[1..] == first[1..] + second;
      AppliedInTurn(Applied(t, first[0]), first[1..], second);
    }
  }

  /** While storage is down and nothing is persisted, clearing both scopes empties the table. */
  lemma {:induction false} EmptiedByClears(t: Table)
    requires |t.jobs| == MAX_JOBS && NothingPersisted(t.jobs)
    ensures var after := AppliedAll(t, [Clear(Managed), Clear(User)]);
            after == t.(jobs := after.jobs) && forall k :: 0 <= k < MAX_JOBS ==> !after.jobs[k].active
  {
    var managed := Applied(t, Clear(Managed));
    assert managed == t.(jobs := Without(t.jobs, Managed));
    assert NothingPersisted(managed.jobs);
    var ops := [Clear(Managed), Clear(User)];
    assert ops[1..] == [Clear(User)] && ops[1..][1..] == [];
    assert AppliedAll(managed, [Clear(User)]) == AppliedAll(Applied(managed, Clear(User)), []);
  }

  // The load that then follows.

  lemma {:induction false} SkipsTaken(t: Table, records: seq<Stored>, m: nat)
    requires |t.jobs| == MAX_JOBS && m <= |records| && forall n :: 0 <= n < m ==> TakenBy(t.jobs, records[n])
    ensures LoadedRecords(t, records) == LoadedRecords(t, records[m..])
    decreases m
  {
    if m == 0 {
      assert records[0..] == records;
    } else {
      assert LoadedRecord(t, records[0]) == t;
      assert records[1..][m - 1..] == records[m..];
      SkipsTaken(t, records[1..], m - 1);
    }
  }

  /** Record m is loaded into slot f, under its own id. */
  lemma {:induction false} LoadsRecord(t: Table, records: seq<Stored>, m: nat, f: nat, last: uint32)
    requires Prepared(t, records, m, f, last) && WellSaved(Holds(records)) && m <= f
    requires 0 < records[m].id <= last && last <= INT32_MAX
    ensures var after := LoadedRecords(t, records);
            && IsRecord(after.jobs[f], records, m)
            && forall k :: 0 <= k < f ==> after.jobs[k] == t.jobs[k]
  {
    SkipsTaken(t, records, m);
    var r, next := records[m], LoadedRecord(t, records[m]);
    FirstFreeIs(t.jobs, f);
    assert !TakenId(t.jobs, r.id);
    assert Readable(r);
    assert IsRecord(next.jobs[f], records, m);
    LoadFillsFreeSlots(next, records[m..][1..]);
    assert records[m..][0] == r;
  }

  /** Failing clears use up the outcomes that are no good, and change no slot. */
  lemma {:induction false} Drain(t: Table, scope: Scope) returns (ops: seq<Op>)
    requires |t.jobs| == MAX_JOBS && t.on && t.ready && CanSave(t.writes) && PersistedInScope(t.jobs, scope)
    ensures TimedOps(ops)
    ensures var after := AppliedAll(t, ops);
            && after.jobs == t.jobs && after.on && after.ready && after.nextId == t.nextId
            && NextOutcome(after) == Written
    decreases |t.writes|
  {
    ops := [];
    if t.writes != [] && !t.writes[0].Written? {
      var next := Applied(t, Clear(scope));
      var rest := Drain(next, scope);
      ops := [Clear(scope)] + rest;
      assert ops[1..] == rest;
    }
  }

  /** A quiet tick passes the younger jobs and runs the one in slot f. */
  lemma {:induction false} QuietTickRuns(t: Table, i: nat, now: Now, last: uint32, f: nat)
    requires |t.jobs| == MAX_JOBS && i <= f < MAX_JOBS && t.on && t.ready
    requires forall k :: i <= k < f ==> t.jobs[k].id > last
    requires t.jobs[f].active && t.jobs[f].id <= last && !Waits(t.jobs[f], now)
    requires Persists(t.jobs[f]) && t.jobs[f].interval == 0 ==> NextOutcome(t) == Written
    ensures t.jobs[f] in Ticked(t, i, now, last, []).1
    decreases f - i
  {
    if i < f {
      QuietTickRuns(t, i + 1, now, last, f);
    }
  }

  predicate Struck(t: Table, records: seq<Stored>, m: nat, f: nat, last: uint32) {
    && |t.jobs| == MAX_JOBS && f < MAX_JOBS && t.on && t.ready && IsRecord(t.jobs[f], records, m)
    && (forall k :: 0 <= k < f ==> t.jobs[k].id > last)
    && (records[m].interval == 0 ==> NextOutcome(t) == Written)
  }

  /** Storage comes up after the slots were filled, and the good outcome is next if one is needed. */
  lemma {:induction false} LoadAndDrain(t: Table, records: seq<Stored>, m: nat, f: nat, now: Now,
                                        last: uint32) returns (ops: seq<Op>)
    requires Prepared(t, records, m, f, last) && m <= f && !t.ready && t.file == Holds(records) && WellSaved(t.file)
    requires 0 < records[m].id <= last <= INT32_MAX && Replays(t, records[m], now)
    ensures TimedOps(ops) && Struck(AppliedAll(t, ops), records, m, f, last)
  {
    var mounted := Applied(t, Mount(true));
    assert Prepared(t.(ready := true), records, m, f, last);
    LoadsRecord(t.(ready := true), records, m, f, last);
    ops := [];
    if records[m].interval == 0 {
      assert Persists(mounted.jobs[f]);
      ops := Drain(mounted, mounted.jobs[f].scope);
    }
    ops := [Mount(true)] + ops;
    assert AppliedAll(t, ops) == AppliedAll(mounted, ops[1..]);
  }

  lemma {:induction false} StruckRuns(t: Table, records: seq<Stored>, m: nat, f: nat, i: nat, now: Now, last: uint32)
    requires Struck(t, records, m, f, last) && i <= f && records[m].id <= last && RecordDue(records[m], now)
    ensures exists job :: job in Ticked(t, i, now, last, []).1 && job.id == records[m].id
  {
    QuietTickRuns(t, i, now, last, f);
    assert t.jobs[f].id == records[m].id;
  }

  /** What to do while the job of slot k runs, so that record m runs after it. */
  lemma {:induction false} Strike(t: Table, k: nat, m: nat, now: Now, last: uint32) returns (ops: seq<Op>)
    requires |t.jobs| == MAX_JOBS && k < MAX_JOBS - 1 && t.on && !t.ready && NothingPersisted(t.jobs)
    requires t.file.Holds? && WellSaved(t.file) && m < |t.file.records| && Replays(t, t.file.records[m], now)
    requires 0 < t.file.records[m].id <= last <= INT32_MAX && last < t.nextId && t.nextId + MAX_JOBS <= INT32_MAX + 1
    ensures TimedOps(ops)
    ensures exists job :: job in Ticked(AppliedAll(t, ops), k + 1, now, last, []).1 && job.id == t.file.records[m].id
  {
    var records, f := t.file.records, if m > k then m else k + 1;
    var clears := [Clear(Managed), Clear(User)];
    EmptiedByClears(t);
    var empty := AppliedAll(t, clears);
    assert Prepared(empty, records, m, 0, last);
    var fills := FillSlots(empty, records, m, 0, f, last);
    var full := AppliedAll(empty, fills);
    var rest := LoadAndDrain(full, records, m, f, now, last);
    ops := clears + (fills + rest);
    AppliedInTurn(t, clears, fills + rest);
    AppliedInTurn(empty, fills, rest);
    StruckRuns(AppliedAll(full, rest), records, m, f, k + 1, now, last);
  }

  /** With a hazard there is a plan under which an id runs twice. */
  lemma {:induction false} Attack(t: Table, i: nat, k: nat, m: nat, now: Now, last: uint32) returns (plan: seq<seq<Op>>)
    requires Sound(t) && t.on && !t.ready && NothingPersisted(t.jobs) && WellSaved(t.file)
    requires last < t.nextId && t.nextId + MAX_JOBS <= INT32_MAX + 1
    requires i <= k && Recalls(t, k, m, now, last)
    ensures TimedPlan(plan) && !RunsOnce(Ticked(t, i, now, last, plan).1)
    decreases k - i
  {
    var (fired, run) := Fired(t, i, now, last);
    FireKeepsSound(t, i, now, last);
    FireElsewhere(t, i, now, last);
    FireKeepsStorage(t, i, now, last);
    assert NothingPersisted(fired.jobs);
    if i == k {
      var ops := Strike(fired, k, m, now, last);
      plan := [ops];
      TickHead(t, i, now, last, ops, []);
      assert plan == [ops] + [];
      Twice(run.value, Ticked(AppliedAll(fired, ops), i + 1, now, last, []).1);
    } else {
      assert Recalls(fired, k, m, now, last);
      var later := Attack(fired, i + 1, k, m, now, last);
      plan := if run.None? then later else [[]] + later;
      if run.Some? {
        TickHead(t, i, now, last, [], later);
        StillTwice(run.value, Ticked(fired, i + 1, now, last, later).1);
      }
    }
  }

  lemma {:induction false} Twice(job: Job, more: seq<Job>)
    requires exists other :: other in more && other.id == job.id
    ensures !RunsOnce([job] + more)
  {
    var ran := [job] + more;
    var other :| other in more && other.id == job.id;
    var q :| 0 <= q < |more| && more[q] == other;
    assert ran[0] == job && ran[q + 1] == more[q];
  }

  lemma {:induction false} StillTwice(job: Job, more: seq<Job>)
    requires !RunsOnce(more)
    ensures !RunsOnce([job] + more)
  {
    var ran := [job] + more;
    var r, q :| 0 <= r < q < |more| && more[r].id == more[q].id;
    assert ran[r + 1] == more[r] && ran[q + 1] == more[q];
  }

  /**
   * While storage is down, in a table a device can reach with ids to spare: every tick runs each id at most once,
   * whatever is done meanwhile, if and only if the file holds no due record under the id of a job that is due.
   */
  lemma {:induction false} IdsRunOnceIff(t: Table, now: Now)
    requires Sound(t) && t.on && !t.ready && NothingPersisted(t.jobs) && WellSaved(t.file)
    requires t.nextId + MAX_JOBS <= INT32_MAX + 1
    ensures (forall plan :: TimedPlan(plan) ==> RunsOnce(Ticked(t, 0, now, LastId(t), plan).1)) <==>
            !Hazard(t, 0, now, LastId(t))
  {
    if Hazard(t, 0, now, LastId(t)) {
      var k: nat, m: nat :| 0 <= k && Recalls(t, k, m, now, LastId(t));
      var plan := Attack(t, 0, k, m, now, LastId(t));
    } else {
      forall plan | TimedPlan(plan) ensures RunsOnce(Ticked(t, 0, now, LastId(t), plan).1) {
        TickRunsOnceWithoutHazard(t, 0, now, LastId(t), plan);
      }
    }
  }

  /** A table whose storage is not up yet: one due callback in slot 0, and a file holding a job under the same id. */
  function LateTable(): (t: Table)
    ensures Sound(t)
  {
    var callback := Job(true, 1, Managed, "a", "", Monotonic, 0, 0, Some(7));
    Table(EmptyJobs()[0 := callback], 2, false, Holds([Stored(1, "user", "b", "cmd", 1, 0)]), [], true)
  }

  /** Such tables are no fancy: this one runs id 1 twice when storage comes up while its callback runs. */
  lemma {:induction false} LateLoadReusesId()
    ensures exists plan :: TimedPlan(plan) && !RunsOnce(Ticked(LateTable(), 0, Now(0, Some(10)), LastId(LateTable()), plan).1)
  {
    var t, now := LateTable(), Now(0, Some(10));
    assert t.file.records[0] == Stored(1, "user", "b", "cmd", 1, 0) && t.jobs[0].id == 1;
    assert Recalls(t, 0, 0, now, LastId(t));
    var plan := Attack(t, 0, 0, 0, now, LastId(t));
  }

  // ----- the tables and files a device can reach

  /** Nothing persisted is in memory before storage is up, and the file is as a save leaves it. */
  predicate Honest(t: Table) {
    (!t.ready ==> NothingPersisted(t.jobs)) && WellSaved(t.file)
  }

  /** A persisted job of the table was written as this record. */
  predicate Recorded(jobs: seq<Job>, r: Stored) {
    exists job :: job in jobs && Persists(job) && r == Record(job)
  }

  lemma {:induction false} RecordsAre(jobs: seq<Job>, omit: Option<Scope>)
    ensures |Records(jobs, omit)| <= |jobs|
    ensures forall r :: r in Records(jobs, omit) ==> Recorded(jobs, r)
    decreases |jobs|
  {
    if jobs != [] {
      RecordsAre(jobs[1..], omit);
      forall r | r in Records(jobs, omit) ensures Recorded(jobs, r) {
        if r in Records(jobs[1..], omit) {
          var job :| job in jobs[1..] && Persists(job) && r == Record(job);
          assert job in jobs;
        } else {
          assert jobs[0] in jobs;
        }
      }
    }
  }

  lemma {:induction false} RecordsDiffer(jobs: seq<Job>, omit: Option<Scope>)
    requires DistinctLabels(jobs)
    ensures var rs := Records(jobs, omit); forall m, n :: 0 <= m < n < |rs| ==> !SameLabel(rs[m], rs[n])
    decreases |jobs|
  {
    if jobs != [] {
      var rest, all := Records(jobs[1..], omit), Records(jobs, omit);
      RecordsDiffer(jobs[1..], omit);
      RecordsAre(jobs[1..], omit);
      if all != rest {
        forall n | 0 <= n < |rest| ensures !SameLabel(all[0], rest[n]) {
          assert Recorded(jobs[1..], rest[n]);
          var job :| job in jobs[1..] && Persists(job) && rest[n] == Record(job);
          var k :| 0 <= k < |jobs[1..]| && jobs[1..][k] == job;
          assert jobs[k + 1] == job;
        }
        assert forall n :: 1 <= n < |all| ==> all[n] == rest[n - 1];
      }
    }
  }

  lemma {:induction false} SavesAreWellSaved(t: Table, omit: Option<Scope>)
    requires Sound(t)
    ensures WellSaved(Holds(Records(t.jobs, omit)))
  {
    var rs := Records(t.jobs, omit);
    RecordsAre(t.jobs, omit);
    RecordsDiffer(t.jobs, omit);
    forall m | 0 <= m < |rs| ensures Readable(rs[m]) {
      assert Recorded(t.jobs, rs[m]);
    }
  }

  lemma {:induction false} WriteKeepsWellSaved(t: Table, omit: Option<Scope>)
    requires Sound(t) && WellSaved(t.file)
    ensures WellSaved(WriteJobs(t, omit).0.file)
  {
    SavesAreWellSaved(t, omit);
  }

  lemma {:induction false} AddKeepsHonest(t: Table, r: Request)
    requires Sound(t) && Honest(t) && Timed(r)
    ensures Honest(Added(t, r).0)
  {
    if Admits(t, r) {
      var job := Job(true, t.nextId, r.scope, r.tag, r.command, r.clock, r.due, r.interval, r.callback);
      PlaceKeepsSound(t, FirstFree(t.jobs), job, t.nextId + 1);
      WriteKeepsWellSaved(t.(jobs := t.jobs[FirstFree(t.jobs) := job], nextId := t.nextId + 1), None);
    }
  }

  lemma {:induction false} BlankKeepsHonest(t: Table, i: nat)
    requires Sound(t) && Honest(t) && i < MAX_JOBS
    ensures Honest(RemovedAt(t, i).0)
  {
    BlankKeepsSound(t, i);
    WriteKeepsWellSaved(t.(jobs := t.jobs[i := BLANK]), None);
  }

  lemma {:induction false} OpKeepsHonest(t: Table, op: Op)
    requires Sound(t) && Honest(t) && (op.Add? ==> Timed(op.request))
    ensures Honest(Applied(t, op))
  {
    match op
    case Add(r) => AddKeepsHonest(t, r);
    case Remove(scope, s) => if Selected(t.jobs, scope, s) < |t.jobs| { BlankKeepsHonest(t, Selected(t.jobs, scope, s)); }
    case Clear(scope) =>
      WriteKeepsWellSaved(t, Some(scope));
      assert forall k :: 0 <= k < MAX_JOBS ==> Without(t.jobs, scope)[k] in {BLANK, t.jobs[k]};
    case Mount(_) =>
    case Reenter =>
    case LosePower =>
  }

  lemma {:induction false} FireKeepsHonest(t: Table, i: nat, now: Now, last: uint32)
    requires Sound(t) && Honest(t) && i < MAX_JOBS
    ensures Honest(Fired(t, i, now, last).0)
  {
    BlankKeepsSound(t, i);
    WriteKeepsWellSaved(t.(jobs := t.jobs[i := BLANK]), None);
  }

  lemma {:induction false} OpsKeepHonest(l: Ledger, ops: seq<Op>, text: string)
    requires Sound(l.table) && Honest(l.table) && TimedOps(ops)
    ensures Sound(AfterOps(l, ops, text).table) && Honest(AfterOps(l, ops, text).table)
    decreases |ops|
  {
    if ops != [] {
      assert ops[0] in ops;
      OpKeepsHonest(l.table, ops[0]);
      ApplyKeepsSound(l.table, ops[0]);
      OpsKeepHonest(AfterOp(l, ops[0], text), ops[1..], text);
    }
  }

  lemma {:induction false} TickKeepsHonest(l: Ledger, i: nat, now: Now, last: uint32, plan: seq<seq<Op>>, text: string)
    requires Sound(l.table) && Honest(l.table) && i <= MAX_JOBS && TimedPlan(plan)
    ensures Honest(AfterTick(l, i, now, last, plan, text).table)
    decreases MAX_JOBS - i
  {
    if i < MAX_JOBS && l.table.on {
      FireKeepsSound(l.table, i, now, last);
      FireKeepsHonest(l.table, i, now, last);
      var fired := AfterFire(l, i, now, last, text);
      if Fired(l.table, i, now, last).1.None? {
        TickKeepsHonest(fired, i + 1, now, last, plan, text);
      } else {
        var during := if plan == [] then [] else plan[0];
        assert plan != [] ==> plan[0] in plan;
        OpsKeepHonest(fired, during, text);
        TickKeepsHonest(AfterOps(fired, during, text), i + 1, now, last, if plan == [] then [] else plan[1..], text);
      }
    }
  }

  lemma {:induction false} EventKeepsHonest(l: Ledger, e: Event, text: string)
    requires Sound(l.table) && Honest(l.table) && TimedEvent(e)
    ensures Honest(AfterEvent(l, e, text).table)
  {
    match e
    case Boot(writes) =>
    case Do(op) => OpKeepsHonest(l.table, op);
    case Tick(retry, now, plan) =>
      var ready := l.(table := Retried(l.table, retry));
      if retry.Some? {
        ApplyKeepsSound(l.table, Mount(retry.value));
        OpKeepsHonest(l.table, Mount(retry.value));
      }
      TickKeepsHonest(ready, 0, now, LastId(ready.table), plan, text);
  }

  lemma {:induction false} LifeKeepsHonest(l: Ledger, events: seq<Event>, text: string)
    requires Sound(l.table) && Honest(l.table) && forall e :: e in events ==> TimedEvent(e)
    ensures Honest(Life(l, events, text).table)
    decreases |events|
  {
    if events != [] {
      assert events[0] in events;
      EventKeepsHonest(l, events[0], text);
      LifeKeepsSound(l, [events[0]], text);
      assert [events[0]][1..] == [];
      assert Life(AfterEvent(l, events[0], text), [], text) == AfterEvent(l, events[0], text);
      LifeKeepsHonest(AfterEvent(l, events[0], text), events[1..], text);
    }
  }

  /** In every table a device reaches from a file that saves have left, if storage is down and ids are to spare: the next
      tick runs each id at most once, whatever is done meanwhile, if and only if the file holds no such record. */
  lemma {:induction false} ReachableIdsRunOnceIff(file: JobsFile, writes: seq<WriteOutcome>, events: seq<Event>, now: Now)
    requires WellSaved(file) && forall e :: e in events ==> TimedEvent(e)
    ensures var t := Life(Ledger(Rebooted(Table([], 1, false, file, [], true), writes), 0, 0), events, "").table;
            t.on && !t.ready && t.nextId + MAX_JOBS <= INT32_MAX + 1 ==>
              ((forall plan :: TimedPlan(plan) ==> RunsOnce(Ticked(t, 0, now, LastId(t), plan).1)) <==>
               !Hazard(t, 0, now, LastId(t)))
  {
    var start := Ledger(Rebooted(Table([], 1, false, file, [], true), writes), 0, 0);
    EmptyIsSound(start.table);
    LifeKeepsSound(start, events, "");
    LifeKeepsHonest(start, events, "");
    var t := Life(start, events, "").table;
    if t.on && !t.ready && t.nextId + MAX_JOBS <= INT32_MAX + 1 {
      IdsRunOnceIff(t, now);
    }
  }
}
