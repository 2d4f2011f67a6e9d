/** What a tick runs, and what a whole life of ticks, crashes, failed saves and reboots runs. */
module SchedulerRuns {
  import opened Common
  import opened SchedulerTable
  import opened SchedulerInvariants

  predicate TimedOps(ops: seq<Op>) {
    forall op :: op in ops ==> op.Add? ==> Timed(op.request)
  }

  predicate TimedPlan(plan: seq<seq<Op>>) {
    forall ops :: ops in plan ==> TimedOps(ops)
  }

  predicate NoMount(plan: seq<seq<Op>>) {
    forall ops, op :: ops in plan && op in ops ==> !op.Mount?
  }

  // ----- one tick

  /** Every slot holds what it held, nothing, or a job younger than `last`. */
  predicate OnlyYounger(before: seq<Job>, after: seq<Job>, last: uint32) {
    && |before| == |after|
    && forall k :: 0 <= k < |before| ==> after[k] == before[k] || after[k] == BLANK || after[k].id > last
  }

  lemma {:induction false} RemoveOnlyYounger(t: Table, scope: Scope, selector: Selector, last: uint32)
    requires Sound(t)
    ensures OnlyYounger(t.jobs, Removed(t, scope, selector).0.jobs, last) && Removed(t, scope, selector).0.ready == t.ready
  {
    RemoveIsExact(t, scope, selector);
  }

  lemma {:induction false} ClearOnlyYounger(t: Table, scope: Scope, last: uint32)
    requires Sound(t)
    ensures OnlyYounger(t.jobs, ClearedScope(t, scope).0.jobs, last) && ClearedScope(t, scope).0.ready == t.ready
  {
  }

  lemma {:induction false} AddOnlyYounger(t: Table, r: Request, last: uint32)
    requires Sound(t) && t.nextId > last
    ensures OnlyYounger(t.jobs, Added(t, r).0.jobs, last) && Added(t, r).0.ready == t.ready
  {
  }

  lemma {:induction false} ApplyOnlyYounger(t: Table, op: Op, last: uint32)
    requires Sound(t) && t.nextId > last && (t.ready || !op.Mount?)
    ensures OnlyYounger(t.jobs, Applied(t, op).jobs, last) && (t.ready ==> Applied(t, op).ready)
  {
    match op
    case Add(r) => AddOnlyYounger(t, r, last);
    case Remove(scope, s) => RemoveOnlyYounger(t, scope, s, last);
    case Clear(scope) => ClearOnlyYounger(t, scope, last);
    case Mount(_) =>
    case Reenter =>
    case LosePower =>
  }

  lemma {:induction false} ApplyAllOnlyYounger(t: Table, ops: seq<Op>, last: uint32)
    requires Sound(t) && t.nextId > last && TimedOps(ops) && (t.ready || forall op :: op in ops ==> !op.Mount?)
    ensures var after := AppliedAll(t, ops);
            && Sound(after) && after.nextId > last && OnlyYounger(t.jobs, after.jobs, last)
            && (t.ready ==> after.ready)
    decreases |ops|
  {
    if ops != [] {
      ApplyOnlyYounger(t, ops[0], last);
      ApplyKeepsSound(t, ops[0]);
      ApplyAllOnlyYounger(Applied(t, ops[0]), ops[1..], last);
    }
  }

  /** This job is in a slot from i on, old enough and due. */
  ghost predicate Due(t: Table, i: nat, now: Now, last: uint32, job: Job) {
    job.active && job.id <= last && !Waits(job, now) && exists k :: i <= k < |t.jobs| && t.jobs[k] == job
  }

  /** These jobs stood due in slots from i on, none twice. */
  ghost predicate StoodDue(t: Table, i: nat, now: Now, last: uint32, ran: seq<Job>) {
    && (forall r :: 0 <= r < |ran| ==> Due(t, i, now, last, ran[r]))
    && (forall r, q :: 0 <= r < q < |ran| ==> ran[r].id != ran[q].id)
  }

  lemma {:induction false} FireElsewhere(t: Table, i: nat, now: Now, last: uint32)
    requires Sound(t) && i < MAX_JOBS
    ensures var (fired, run) := Fired(t, i, now, last);
            && (forall k :: 0 <= k < MAX_JOBS && k != i ==> fired.jobs[k] == t.jobs[k])
            && (t.ready ==> fired.ready)
            && (run.Some? ==> run.value == t.jobs[i] && t.jobs[i].active && t.jobs[i].id <= last && !Waits(t.jobs[i], now))
  {
  }

  /**
   * In one tick every job runs at most once, only jobs that stood due when it began run, and none added meanwhile
   * does, whatever callbacks and other tasks do to the table while it is unlocked.
   */
  lemma {:induction false} TickRunsEachOnce(t: Table, i: nat, now: Now, last: uint32, plan: seq<seq<Op>>)
    requires Sound(t) && i <= MAX_JOBS && t.nextId > last && TimedPlan(plan) && (t.ready || NoMount(plan))
    ensures Sound(Ticked(t, i, now, last, plan).0)
    ensures StoodDue(t, i, now, last, Ticked(t, i, now, last, plan).1)
    decreases MAX_JOBS - i, 1
  {
    if i < MAX_JOBS && t.on {
      var (fired, run) := Fired(t, i, now, last);
      FireKeepsSound(t, i, now, last);
      FireElsewhere(t, i, now, last);
      if run.None? {
        TickRunsEachOnce(fired, i + 1, now, last, plan);
        TickSkip(t, i, now, last, fired, Ticked(fired, i + 1, now, last, plan).1);
      } else {
        TickUnlocked(t, i, now, last, plan);
      }
    }
  }

  lemma {:induction false} TickUnlocked(t: Table, i: nat, now: Now, last: uint32, plan: seq<seq<Op>>)
    requires Sound(t) && i < MAX_JOBS && t.on && t.nextId > last && TimedPlan(plan) && (t.ready || NoMount(plan))
    requires Fired(t, i, now, last).1.Some?
    ensures Sound(Ticked(t, i, now, last, plan).0)
    ensures StoodDue(t, i, now, last, Ticked(t, i, now, last, plan).1)
    decreases MAX_JOBS - i, 0
  {
    var (fired, run) := Fired(t, i, now, last);
    FireKeepsSound(t, i, now, last);
    FireElsewhere(t, i, now, last);
    var during, later := if plan == [] then [] else plan[0], if plan == [] then [] else plan[1..];
    ApplyAllOnlyYounger(fired, during, last);
    var unlocked := AppliedAll(fired, during);
    assert forall k :: i < k < MAX_JOBS ==> fired.jobs[k] == t.jobs[k];
    assert OnlyYounger(fired.jobs, unlocked.jobs, last);
    TickRunsEachOnce(unlocked, i + 1, now, last, later);
    TickStep(t, i, now, last, unlocked, run.value, Ticked(unlocked, i + 1, now, last, later).1);
  }

  /** What is due after slot i in a later table was due there before, and is not slot i's job. */
  lemma {:induction false} DueEarlier(t: Table, i: nat, now: Now, last: uint32, later: Table, job: Job)
    requires Sound(t) && i < MAX_JOBS && |later.jobs| == MAX_JOBS
    requires forall k :: i < k < MAX_JOBS ==>
      later.jobs[k] == t.jobs[k] || later.jobs[k] == BLANK || later.jobs[k].id > last
    requires Due(later, i + 1, now, last, job)
    ensures Due(t, i, now, last, job) && (t.jobs[i].active ==> job.id != t.jobs[i].id)
  {
    var k :| i + 1 <= k < |later.jobs| && later.jobs[k] == job;
    assert t.jobs[k] == job;
  }

  lemma {:induction false} TickSkip(t: Table, i: nat, now: Now, last: uint32, fired: Table, ran: seq<Job>)
    requires Sound(t) && i < MAX_JOBS && |fired.jobs| == MAX_JOBS
    requires forall k :: i < k < MAX_JOBS ==> fired.jobs[k] == t.jobs[k]
    requires StoodDue(fired, i + 1, now, last, ran)
    ensures StoodDue(t, i, now, last, ran)
  {
    forall r | 0 <= r < |ran| ensures Due(t, i, now, last, ran[r]) {
      DueEarlier(t, i, now, last, fired, ran[r]);
    }
  }

  lemma {:induction false} TickStep(t: Table, i: nat, now: Now, last: uint32, unlocked: Table, run: Job, more: seq<Job>)
    requires Sound(t) && i < MAX_JOBS && |unlocked.jobs| == MAX_JOBS
    requires run == t.jobs[i] && run.active && run.id <= last && !Waits(run, now)
    requires forall k :: i < k < MAX_JOBS ==>
      unlocked.jobs[k] == t.jobs[k] || unlocked.jobs[k] == BLANK || unlocked.jobs[k].id > last
    requires StoodDue(unlocked, i + 1, now, last, more)
    ensures StoodDue(t, i, now, last, [run] + more)
  {
    var ran := [run] + more;
    assert Due(t, i, now, last, run);
    forall r | 1 <= r < |ran| ensures Due(t, i, now, last, ran[r]) && ran[r].id != run.id {
      DueEarlier(t, i, now, last, unlocked, more[r - 1]);
    }
  }

  lemma {:induction false} TickHead(t: Table, i: nat, now: Now, last: uint32, during: seq<Op>, later: seq<seq<Op>>)
    requires |t.jobs| == MAX_JOBS && i < MAX_JOBS && t.on && Fired(t, i, now, last).1.Some?
    ensures var (fired, run) := Fired(t, i, now, last);
            Ticked(t, i, now, last, [during] + later).1 ==
              [run.value] + Ticked(AppliedAll(fired, during), i + 1, now, last, later).1
  {
    var plan := [during] + later;
    assert plan[0] == during && plan[1..] == later;
  }

  /** Left alone, and with storage working, a tick runs every job that is due. */
  lemma {:induction false} QuietTickRunsAllDue(t: Table, i: nat, now: Now, last: uint32, k: nat)
    requires |t.jobs| == MAX_JOBS && i <= k < MAX_JOBS && t.on && t.ready && t.writes == []
    requires t.jobs[k].active && t.jobs[k].id <= last && !Waits(t.jobs[k], now)
    ensures t.jobs[k] in Ticked(t, i, now, last, []).1
    decreases MAX_JOBS - i
  {
    var (fired, run) := Fired(t, i, now, last);
    assert fired.on && fired.ready && fired.writes == [];
    if i < k {
      assert fired.jobs[k] == t.jobs[k];
      QuietTickRunsAllDue(fired, i + 1, now, last, k);
    }
  }

  // ----- a persisted one-shot over a whole life

  /** What happens to a device, in any order; a tick may be cut anywhere by what `plan` and the writes do. */
  datatype Event = Boot(writes: seq<WriteOutcome>) | Do(op: Op) | Tick(retry: Option<bool>, now: Now, plan: seq<seq<Op>>)

  /** Memory is gone; the file is all that is left. Storage mounts when a `Mount` says so. */
  function Rebooted(t: Table, writes: seq<WriteOutcome>): Table {
    Table(EmptyJobs(), 1, false, t.file, writes, true)
  }

  /** A table with, for one command, how many jobs with it were added and how often it ran. */
  datatype Ledger = Ledger(table: Table, adds: nat, runs: nat)

  /** An add that is refused although its record is on flash: the write was whole, only its end was reported failed. */
  predicate RefusedYetWritten(t: Table, r: Request) {
    Admits(t, r) && MustPersist(r) && t.writes != [] && t.writes[0] == Failed(NewFile)
  }

  /** A successful or power-cut add of a job with this command, or one refused too late; any other refused add is no job. */
  predicate Counts(t: Table, op: Op, text: string)
    requires |t.jobs| == MAX_JOBS
  {
    op.Add? && op.request.command == text && t.on
    && (Added(t, op.request).1.Some? || !Added(t, op.request).0.on || RefusedYetWritten(t, op.request))
  }

  function AfterOp(l: Ledger, op: Op, text: string): (after: Ledger)
    requires |l.table.jobs| == MAX_JOBS
    ensures |after.table.jobs| == MAX_JOBS
  {
    Ledger(Applied(l.table, op), if Counts(l.table, op, text) then l.adds + 1 else l.adds, l.runs)
  }

  function AfterOps(l: Ledger, ops: seq<Op>, text: string): (after: Ledger)
    requires |l.table.jobs| == MAX_JOBS
    ensures |after.table.jobs| == MAX_JOBS
    decreases |ops|
  {
    if ops == [] then l else AfterOps(AfterOp(l, ops[0], text), ops[1..], text)
  }

  function AfterFire(l: Ledger, i: nat, now: Now, last: uint32, text: string): (after: Ledger)
    requires |l.table.jobs| == MAX_JOBS && i < MAX_JOBS
    ensures |after.table.jobs| == MAX_JOBS
  {
    var (fired, run) := Fired(l.table, i, now, last);
    Ledger(fired, l.adds, if run.Some? && run.value.command == text then l.runs + 1 else l.runs)
  }

  /** A tick, keeping the books. */
  function AfterTick(l: Ledger, i: nat, now: Now, last: uint32, plan: seq<seq<Op>>, text: string): (after: Ledger)
    requires |l.table.jobs| == MAX_JOBS && i <= MAX_JOBS
    ensures |after.table.jobs| == MAX_JOBS
    decreases |l.table.jobs| - i
  {
    if i == MAX_JOBS || !l.table.on then l
    else
      var fired := AfterFire(l, i, now, last, text);
      if Fired(l.table, i, now, last).1.None? then AfterTick(fired, i + 1, now, last, plan, text)
      else
        var during := if plan == [] then [] else plan[0];
        AfterTick(AfterOps(fired, during, text), i + 1, now, last, if plan == [] then [] else plan[1..], text)
  }

  function AfterWholeTick(l: Ledger, retry: Option<bool>, now: Now, plan: seq<seq<Op>>, text: string): (after: Ledger)
    requires |l.table.jobs| == MAX_JOBS
    ensures |after.table.jobs| == MAX_JOBS
  {
    var ready := l.(table := Retried(l.table, retry));
    AfterTick(ready, 0, now, LastId(ready.table), plan, text)
  }

  function AfterEvent(l: Ledger, e: Event, text: string): (after: Ledger)
    requires |l.table.jobs| == MAX_JOBS
    ensures |after.table.jobs| == MAX_JOBS
  {
    match e
    case Boot(writes) => l.(table := Rebooted(l.table, writes))
    case Do(op) => AfterOp(l, op, text)
    case Tick(retry, now, plan) => AfterWholeTick(l, retry, now, plan, text)
  }

  function Life(l: Ledger, events: seq<Event>, text: string): (after: Ledger)
    requires |l.table.jobs| == MAX_JOBS
    ensures |after.table.jobs| == MAX_JOBS
    decreases |events|
  {
    if events == [] then l else Life(AfterEvent(l, events[0], text), events[1..], text)
  }

  function RunsOf(ran: seq<Job>, text: string): nat {
    if ran == [] then 0 else (if ran[0].command == text then 1 else 0) + RunsOf(ran[1..], text)
  }

  lemma {:induction false} AfterOpsIsApplied(l: Ledger, ops: seq<Op>, text: string)
    requires |l.table.jobs| == MAX_JOBS
    ensures AfterOps(l, ops, text).table == AppliedAll(l.table, ops) && AfterOps(l, ops, text).runs == l.runs
    decreases |ops|
  {
    if ops != [] { AfterOpsIsApplied(AfterOp(l, ops[0], text), ops[1..], text); }
  }

  /** Keeping the books changes nothing, and the books count what the tick ran. */
  lemma {:induction false} BooksAreTrue(l: Ledger, i: nat, now: Now, last: uint32, plan: seq<seq<Op>>, text: string)
    requires |l.table.jobs| == MAX_JOBS && i <= MAX_JOBS
    ensures var after := AfterTick(l, i, now, last, plan, text);
            var (table, ran) := Ticked(l.table, i, now, last, plan);
            after.table == table && after.runs == l.runs + RunsOf(ran, text)
    decreases MAX_JOBS - i
  {
    if i < MAX_JOBS && l.table.on {
      var fired, run := AfterFire(l, i, now, last, text), Fired(l.table, i, now, last).1;
      if run.None? {
        BooksAreTrue(fired, i + 1, now, last, plan, text);
      } else {
        var during, later := if plan == [] then [] else plan[0], if plan == [] then [] else plan[1..];
        AfterOpsIsApplied(fired, during, text);
        BooksAreTrue(AfterOps(fired, during, text), i + 1, now, last, later, text);
        var more := Ticked(AppliedAll(fired.table, during), i + 1, now, last, later).1;
        assert ([run.value] + more)[1..] == more;
      }
    }
  }

  predicate InMemory(jobs: seq<Job>, text: string) {
    exists k :: 0 <= k < |jobs| && jobs[k].command == text
  }

  predicate InRecords(records: seq<Stored>, text: string) {
    exists k :: 0 <= k < |records| && records[k].command == text
  }

  predicate InFile(file: JobsFile, text: string) {
    file.Holds? && InRecords(file.records, text)
  }

  /** At most one of these records carries the command, and it is a one-shot. */
  predicate OneRecord(records: seq<Stored>, text: string) {
    && (forall k :: 0 <= k < |records| && records[k].command == text ==> records[k].interval == 0)
    && (forall j, k :: 0 <= j < k < |records| && records[j].command == text ==> records[k].command != text)
  }

  /** At most one of these jobs carries the command, and it is a persisted one-shot. */
  predicate OneJob(jobs: seq<Job>, text: string) {
    && (forall k :: 0 <= k < |jobs| && jobs[k].command == text ==> Persists(jobs[k]) && jobs[k].interval == 0)
    && (forall j, k :: 0 <= j < k < |jobs| && jobs[j].command == text ==> jobs[k].command != text)
  }

  predicate OneCopy(t: Table, text: string) {
    OneJob(t.jobs, text) && (t.file.Holds? ==> OneRecord(t.file.records, text))
  }

  predicate Nowhere(t: Table, text: string) {
    !InMemory(t.jobs, text) && !InFile(t.file, text)
  }

  lemma {:induction false} RecordsFromMemory(jobs: seq<Job>, omit: Option<Scope>, text: string)
    requires InRecords(Records(jobs, omit), text)
    ensures InMemory(jobs, text)
    decreases |jobs|
  {
    var k :| 0 <= k < |Records(jobs, omit)| && Records(jobs, omit)[k].command == text;
    if jobs[0].command != text {
      var rest := Records(jobs[1..], omit);
      assert InRecords(rest, text) by {
        if rest != Records(jobs, omit) { assert rest[k - 1].command == text; }
      }
      RecordsFromMemory(jobs[1..], omit, text);
      var m :| 0 <= m < |jobs[1..]| && jobs[1..][m].command == text;
      assert jobs[m + 1].command == text;
    }
  }

  lemma {:induction false} RecordsOfOne(jobs: seq<Job>, omit: Option<Scope>, text: string)
    requires OneJob(jobs, text)
    ensures OneRecord(Records(jobs, omit), text)
    decreases |jobs|
  {
    if jobs != [] {
      var rest, all := Records(jobs[1..], omit), Records(jobs, omit);
      RecordsOfOne(jobs[1..], omit, text);
      if all != rest {
        assert all == [Record(jobs[0])] + rest;
        forall k | 1 <= k < |all| && all[k].command == text ensures all[0].command != text {
          assert rest[k - 1] == all[k];
          RecordsFromMemory(jobs[1..], omit, text);
          var m :| 0 <= m < |jobs[1..]| && jobs[1..][m].command == text;
          assert jobs[m + 1].command == text;
        }
      }
    }
  }

  /** However a write ends, the file then holds no copy that memory and the old file did not. */
  lemma {:induction false} WriteKeepsOneCopy(t: Table, omit: Option<Scope>, text: string)
    requires OneCopy(t, text)
    ensures OneCopy(WriteJobs(t, omit).0, text)
    ensures InFile(WriteJobs(t, omit).0.file, text) ==> InFile(t.file, text) || InMemory(t.jobs, text)
    ensures WriteJobs(t, omit).1 && InFile(WriteJobs(t, omit).0.file, text) ==> InMemory(t.jobs, text)
  {
    RecordsOfOne(t.jobs, omit, text);
    if InRecords(Records(t.jobs, omit), text) { RecordsFromMemory(t.jobs, omit, text); }
  }

  /** Adds of this command are wall-clock one-shots. */
  predicate Proper(op: Op, text: string) {
    op.Add? && op.request.command == text ==> op.request.clock == Wall && op.request.interval == 0
  }

  predicate ProperOps(ops: seq<Op>, text: string) {
    forall op :: op in ops ==> Proper(op, text)
  }

  predicate ProperEvent(e: Event, text: string) {
    match e
    case Boot(_) => true
    case Do(op) => Proper(op, text)
    case Tick(_, _, plan) => forall ops :: ops in plan ==> ProperOps(ops, text)
  }

  /** At most one copy anywhere, none in memory before storage is mounted. */
  predicate Tracked(t: Table, text: string) {
    && |t.jobs| == MAX_JOBS && text != "" && OneCopy(t, text)
    && (!t.ready ==> !InMemory(t.jobs, text))
  }

  /** While at most one job with the command was ever added, it ran at most once, and having run it is gone for good. */
  predicate Balanced(l: Ledger, text: string) {
    && |l.table.jobs| == MAX_JOBS && text != ""
    && (l.adds <= 1 ==>
          && Tracked(l.table, text) && l.runs <= l.adds
          && (l.adds == 0 || l.runs == 1 ==> Nowhere(l.table, text)))
  }

  // What each operation makes of the copies.

  lemma {:induction false} AddOfOther(t: Table, r: Request, text: string)
    requires Tracked(t, text) && r.command != text
    ensures var after := Added(t, r).0; Tracked(after, text) && (Nowhere(t, text) ==> Nowhere(after, text))
  {
    if Admits(t, r) {
      var i := FirstFree(t.jobs);
      var job := Job(true, t.nextId, r.scope, r.tag, r.command, r.clock, r.due, r.interval, r.callback);
      SlotChange(t, i, job, t.nextId + 1, text);
      SlotChange(t, i, BLANK, t.nextId, text);
      WriteKeepsOneCopy(t.(jobs := t.jobs[i := job], nextId := t.nextId + 1), None, text);
    }
  }

  /** A slot without the command given something else without the command. */
  lemma {:induction false} SlotChange(t: Table, i: nat, job: Job, nextId: uint32, text: string)
    requires Tracked(t, text) && i < MAX_JOBS && job.command != text
    ensures var after := t.(jobs := t.jobs[i := job], nextId := nextId);
            Tracked(after, text) && (InMemory(after.jobs, text) ==> InMemory(t.jobs, text))
  {
    var after := t.jobs[i := job];
    if InMemory(after, text) {
      var k :| 0 <= k < |after| && after[k].command == text;
      assert t.jobs[k].command == text;
    }
  }

  lemma {:induction false} AddOfTracked(t: Table, r: Request, text: string)
    requires Tracked(t, text) && Nowhere(t, text) && r.command == text && Proper(Add(r), text)
    ensures var after := Added(t, r).0;
            Tracked(after, text) && (!Counts(t, Add(r), text) ==> Nowhere(after, text))
  {
    if Admits(t, r) {
      var i := FirstFree(t.jobs);
      var job := Job(true, t.nextId, r.scope, r.tag, r.command, r.clock, r.due, r.interval, r.callback);
      var placed := t.(jobs := t.jobs[i := job], nextId := t.nextId + 1);
      assert forall k :: 0 <= k < MAX_JOBS && k != i ==> placed.jobs[k].command != text;
      WriteKeepsOneCopy(placed, None, text);
      SlotChange(t, i, BLANK, t.nextId, text);
    }
  }

  lemma {:induction false} BlankedAt(t: Table, i: nat, text: string)
    requires Tracked(t, text) && i < MAX_JOBS
    ensures var after := RemovedAt(t, i).0; Tracked(after, text) && (Nowhere(t, text) ==> Nowhere(after, text))
  {
    SlotChange(t, i, BLANK, t.nextId, text);
    WriteKeepsOneCopy(t.(jobs := t.jobs[i := BLANK]), None, text);
  }

  lemma {:induction false} WithoutKeepsOne(jobs: seq<Job>, scope: Scope, text: string)
    requires OneJob(jobs, text) && text != ""
    ensures OneJob(Without(jobs, scope), text)
    ensures InMemory(Without(jobs, scope), text) ==> InMemory(jobs, text)
  {
    var after := Without(jobs, scope);
    assert forall k :: 0 <= k < |jobs| ==> after[k] == jobs[k] || after[k] == BLANK;
    if InMemory(after, text) {
      var k :| 0 <= k < |after| && after[k].command == text;
      assert jobs[k].command == text;
    }
  }

  lemma {:induction false} ClearKeepsTracked(t: Table, scope: Scope, text: string)
    requires Tracked(t, text)
    ensures var after := ClearedScope(t, scope).0; Tracked(after, text) && (Nowhere(t, text) ==> Nowhere(after, text))
  {
    WriteKeepsOneCopy(t, Some(scope), text);
    WithoutKeepsOne(t.jobs, scope, text);
  }

  /** Loading records of which at most one carries the command. */
  lemma {:induction false} LoadKeepsTracked(t: Table, records: seq<Stored>, text: string)
    requires |t.jobs| == MAX_JOBS && text != "" && OneJob(t.jobs, text) && OneRecord(records, text)
    requires InMemory(t.jobs, text) ==> !InRecords(records, text)
    ensures var after := LoadedRecords(t, records);
            OneJob(after.jobs, text) && (InMemory(after.jobs, text) ==> InMemory(t.jobs, text) || InRecords(records, text))
    decreases |records|
  {
    if records != [] {
      var next, rest := LoadedRecord(t, records[0]), records[1..];
      assert forall k :: 0 <= k < |rest| ==> rest[k] == records[k + 1];
      assert forall k :: 0 <= k < MAX_JOBS ==>
        next.jobs[k] == t.jobs[k] || (!t.jobs[k].active && next.jobs[k].command == records[0].command);
      LoadOneTracked(t, records[0], text);
      LoadKeepsTracked(next, rest, text);
    }
  }

  lemma {:induction false} LoadOneTracked(t: Table, r: Stored, text: string)
    requires |t.jobs| == MAX_JOBS && text != "" && OneJob(t.jobs, text)
    requires r.command == text ==> r.interval == 0 && !InMemory(t.jobs, text)
    ensures var after := LoadedRecord(t, r);
            && OneJob(after.jobs, text)
            && (InMemory(after.jobs, text) ==> InMemory(t.jobs, text) || r.command == text)
  {
    var after := LoadedRecord(t, r);
    var i := FirstFree(t.jobs);
    assert forall k :: 0 <= k < MAX_JOBS && k != i ==> after.jobs[k] == t.jobs[k];
  }

  lemma {:induction false} MountKeepsTracked(t: Table, read: bool, text: string)
    requires Tracked(t, text)
    ensures var after := Mounted(t, read); Tracked(after, text) && (Nowhere(t, text) ==> Nowhere(after, text))
  {
    if !t.ready && t.on && t.file.Holds? {
      LoadKeepsTracked(t.(ready := true), t.file.records, text);
    }
  }

  /** A second add of the command that comes to nothing leaves the first copy alone. */
  lemma {:induction false} RefusedAgain(t: Table, r: Request, text: string)
    requires Tracked(t, text) && r.command == text && Proper(Add(r), text) && !Counts(t, Add(r), text)
    ensures var after := Added(t, r).0;
            Tracked(after, text) && (Nowhere(t, text) ==> Nowhere(after, text))
  {
    if Admits(t, r) {
      SlotChange(t, FirstFree(t.jobs), BLANK, t.nextId, text);
    }
  }

  lemma {:induction false} OpKeepsBalance(l: Ledger, op: Op, text: string)
    requires Balanced(l, text) && Proper(op, text)
    ensures Balanced(AfterOp(l, op, text), text)
  {
    var t := l.table;
    if AfterOp(l, op, text).adds <= 1 {
      match op
      case Add(r) =>
        if r.command != text { AddOfOther(t, r, text); }
        else if Nowhere(t, text) { AddOfTracked(t, r, text); }
        else { RefusedAgain(t, r, text); }
      case Remove(scope, s) =>
        var i := Selected(t.jobs, scope, s);
        if i < |t.jobs| { BlankedAt(t, i, text); }
      case Clear(scope) => ClearKeepsTracked(t, scope, text);
      case Mount(read) => MountKeepsTracked(t, read, text);
      case Reenter =>
      case LosePower =>
    }
  }

  lemma {:induction false} OpsKeepBalance(l: Ledger, ops: seq<Op>, text: string)
    requires Balanced(l, text) && ProperOps(ops, text)
    ensures Balanced(AfterOps(l, ops, text), text)
    decreases |ops|
  {
    if ops != [] {
      OpKeepsBalance(l, ops[0], text);
      OpsKeepBalance(AfterOp(l, ops[0], text), ops[1..], text);
    }
  }

  /** A slot whose job is not the tracked one fires. */
  lemma {:induction false} FireOfOther(t: Table, i: nat, now: Now, last: uint32, text: string)
    requires Tracked(t, text) && i < MAX_JOBS && t.jobs[i].command != text
    ensures var (after, run) := Fired(t, i, now, last);
            && Tracked(after, text) && (Nowhere(t, text) ==> Nowhere(after, text))
            && (run.Some? ==> run.value.command != text)
  {
    var job := t.jobs[i];
    SlotChange(t, i, Advanced(job, now), t.nextId, text);
    if now.wall.Some? { SlotChange(t, i, job.(due := Plus(now.wall.value, job.interval)), t.nextId, text); }
    WriteKeepsOneCopy(t.(jobs := t.jobs[i := Advanced(job, now)]), None, text);
  }

  /** The tracked job fires: its removal is on flash before it runs, and no copy is left anywhere. */
  lemma {:induction false} FireOfTracked(t: Table, i: nat, now: Now, last: uint32, text: string)
    requires Tracked(t, text) && i < MAX_JOBS && t.jobs[i].command == text
    ensures var (after, run) := Fired(t, i, now, last);
            && Tracked(after, text)
            && (run.Some? ==> Nowhere(after, text) && after.file == Holds(Records(after.jobs, None)))
  {
    var gone := t.(jobs := t.jobs[i := BLANK]);
    assert !InMemory(gone.jobs, text);
    WriteKeepsOneCopy(gone, None, text);
  }

  lemma {:induction false} FireKeepsBalance(l: Ledger, i: nat, now: Now, last: uint32, text: string)
    requires Balanced(l, text) && i < MAX_JOBS
    ensures Balanced(AfterFire(l, i, now, last, text), text)
  {
    if l.adds <= 1 {
      if l.table.jobs[i].command == text {
        FireOfTracked(l.table, i, now, last, text);
        assert InMemory(l.table.jobs, text);
      } else {
        FireOfOther(l.table, i, now, last, text);
      }
    }
  }

  lemma {:induction false} TickKeepsBalance(l: Ledger, i: nat, now: Now, last: uint32, plan: seq<seq<Op>>, text: string)
    requires Balanced(l, text) && i <= MAX_JOBS && forall ops :: ops in plan ==> ProperOps(ops, text)
    ensures Balanced(AfterTick(l, i, now, last, plan, text), text)
    decreases MAX_JOBS - i
  {
    if i < MAX_JOBS && l.table.on {
      FireKeepsBalance(l, i, now, last, text);
      var fired := AfterFire(l, i, now, last, text);
      if Fired(l.table, i, now, last).1.None? {
        TickKeepsBalance(fired, i + 1, now, last, plan, text);
      } else {
        var during, later := if plan == [] then [] else plan[0], if plan == [] then [] else plan[1..];
        OpsKeepBalance(fired, during, text);
        TickKeepsBalance(AfterOps(fired, during, text), i + 1, now, last, later, text);
      }
    }
  }

  lemma {:induction false} WholeTickKeepsBalance(l: Ledger, retry: Option<bool>, now: Now, plan: seq<seq<Op>>, text: string)
    requires Balanced(l, text) && forall ops :: ops in plan ==> ProperOps(ops, text)
    ensures Balanced(AfterWholeTick(l, retry, now, plan, text), text)
  {
    var ready := l.(table := Retried(l.table, retry));
    if retry.Some? { OpKeepsBalance(l, Mount(retry.value), text); }
    assert Balanced(ready, text);
    TickKeepsBalance(ready, 0, now, LastId(ready.table), plan, text);
  }

  lemma {:induction false} BootKeepsBalance(l: Ledger, writes: seq<WriteOutcome>, text: string)
    requires Balanced(l, text)
    ensures Balanced(AfterEvent(l, Boot(writes), text), text)
  {
    assert !InMemory(EmptyJobs(), text);
  }

  lemma {:induction false} EventKeepsBalance(l: Ledger, e: Event, text: string)
    requires Balanced(l, text) && ProperEvent(e, text)
    ensures Balanced(AfterEvent(l, e, text), text)
  {
    match e
    case Boot(writes) => BootKeepsBalance(l, writes, text);
    case Do(op) => OpKeepsBalance(l, op, text);
    case Tick(retry, now, plan) => WholeTickKeepsBalance(l, retry, now, plan, text);
  }

  lemma {:induction false} LifeKeepsBalance(l: Ledger, events: seq<Event>, text: string)
    requires Balanced(l, text) && forall e :: e in events ==> ProperEvent(e, text)
    ensures Balanced(Life(l, events, text), text)
    decreases |events|
  {
    if events != [] {
      EventKeepsBalance(l, events[0], text);
      LifeKeepsBalance(AfterEvent(l, events[0], text), events[1..], text);
    }
  }

  /**
   * Over any life of reboots, crashes, failed saves, ticks and whatever callbacks do: a persisted one-shot that was
   * added once runs at most once, and once it has run neither memory nor any later file holds it.
   */
  lemma {:induction false} OneShotRunsAtMostOnce(file: JobsFile, writes: seq<WriteOutcome>, events: seq<Event>, text: string)
    requires text != "" && !InFile(file, text) && forall e :: e in events ==> ProperEvent(e, text)
    ensures var start := Ledger(Rebooted(Table([], 1, false, file, [], true), writes), 0, 0);
            var l := Life(start, events, text);
            l.adds <= 1 ==> l.runs <= 1 && (l.runs == 1 ==> Nowhere(l.table, text))
  {
    var start := Ledger(Rebooted(Table([], 1, false, file, [], true), writes), 0, 0);
    assert file.Holds? ==> forall k :: 0 <= k < |file.records| ==> file.records[k].command != text;
    LifeKeepsBalance(start, events, text);
  }

  // ----- every reachable table

  predicate TimedEvent(e: Event) {
    match e
    case Boot(_) => true
    case Do(op) => op.Add? ==> Timed(op.request)
    case Tick(_, _, plan) => TimedPlan(plan)
  }

  lemma {:induction false} OpsKeepSound(l: Ledger, ops: seq<Op>, text: string)
    requires Sound(l.table) && TimedOps(ops)
    ensures Sound(AfterOps(l, ops, text).table)
    decreases |ops|
  {
    if ops != [] {
      assert ops[0] in ops;
      ApplyKeepsSound(l.table, ops[0]);
      OpsKeepSound(AfterOp(l, ops[0], text), ops[1..], text);
    }
  }

  lemma {:induction false} TickKeepsSound(l: Ledger, i: nat, now: Now, last: uint32, plan: seq<seq<Op>>, text: string)
    requires Sound(l.table) && i <= MAX_JOBS && TimedPlan(plan)
    ensures Sound(AfterTick(l, i, now, last, plan, text).table)
    decreases MAX_JOBS - i
  {
    if i < MAX_JOBS && l.table.on {
      FireKeepsSound(l.table, i, now, last);
      var fired := AfterFire(l, i, now, last, text);
      if Fired(l.table, i, now, last).1.None? {
        TickKeepsSound(fired, i + 1, now, last, plan, text);
      } else {
        var during := if plan == [] then [] else plan[0];
        assert plan != [] ==> plan[0] in plan;
        OpsKeepSound(fired, during, text);
        TickKeepsSound(AfterOps(fired, during, text), i + 1, now, last, if plan == [] then [] else plan[1..], text);
      }
    }
  }

  lemma {:induction false} LifeKeepsSound(l: Ledger, events: seq<Event>, text: string)
    requires Sound(l.table) && forall e :: e in events ==> TimedEvent(e)
    ensures Sound(Life(l, events, text).table)
    decreases |events|
  {
    if events != [] {
      assert events[0] in events;
      match events[0] {
        case Boot(writes) => EmptyIsSound(Rebooted(l.table, writes));
        case Do(op) => ApplyKeepsSound(l.table, op);
        case Tick(retry, now, plan) =>
          var ready := l.(table := Retried(l.table, retry));
          if retry.Some? { ApplyKeepsSound(l.table, Mount(retry.value)); }
          TickKeepsSound(ready, 0, now, LastId(ready.table), plan, text);
      }
      LifeKeepsSound(AfterEvent(l, events[0], text), events[1..], text);
    }
  }

  /** Whatever the file holds and whatever happens, every table a device reaches is sound. */
  lemma {:induction false} ReachableTablesAreSound(file: JobsFile, writes: seq<WriteOutcome>, events: seq<Event>)
    requires forall e :: e in events ==> TimedEvent(e)
    ensures Sound(Life(Ledger(Rebooted(Table([], 1, false, file, [], true), writes), 0, 0), events, "").table)
  {
    var start := Ledger(Rebooted(Table([], 1, false, file, [], true), writes), 0, 0);
    EmptyIsSound(start.table);
    LifeKeepsSound(start, events, "");
  }
}
