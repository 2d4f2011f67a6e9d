/** What every reachable job table keeps, and what a load makes of what a save wrote. */
module SchedulerInvariants {
  import opened Common
  import opened SchedulerTable

  /** A job as `add` and `load` make them: exactly one target, bounded texts, and a deadline or interval if persisted. */
  predicate SoundJob(job: Job) {
    && job.active && 0 < job.id <= INT32_MAX
    && 0 < |job.tag| <= MAX_LABEL_LENGTH && |job.command| <= MAX_COMMAND_LENGTH
    && (job.command != "") != job.callback.Some?
    && (Persists(job) ==> job.due != 0 || job.interval != 0)
  }

  predicate SoundSlots(jobs: seq<Job>, nextId: uint32) {
    && |jobs| == MAX_JOBS && 0 < nextId <= INT32_MAX + 1
    && (forall k :: 0 <= k < |jobs| ==> jobs[k] == BLANK || (SoundJob(jobs[k]) && jobs[k].id < nextId))
  }

  predicate DistinctIds(jobs: seq<Job>) {
    forall i, j :: 0 <= i < j < |jobs| && jobs[i].active && jobs[j].active ==> jobs[i].id != jobs[j].id
  }

  predicate DistinctLabels(jobs: seq<Job>) {
    forall i, j :: 0 <= i < j < |jobs| && jobs[i].active && jobs[j].active && jobs[i].scope == jobs[j].scope ==>
      jobs[i].tag != jobs[j].tag
  }

  predicate Sound(t: Table) {
    SoundSlots(t.jobs, t.nextId) && DistinctIds(t.jobs) && DistinctLabels(t.jobs)
  }

  /** What the schedule forms hand to `add`: a one-shot has a deadline, a wall interval is not zero by being one-shot. */
  predicate Timed(r: Request) {
    MustPersist(r) ==> r.due != 0 || r.interval != 0
  }

  function EmptyJobs(): (jobs: seq<Job>)
    ensures |jobs| == MAX_JOBS && forall k :: 0 <= k < MAX_JOBS ==> jobs[k] == BLANK
  {
    seq(MAX_JOBS, _ => BLANK)
  }

  lemma {:induction false} EmptyIsSound(t: Table)
    requires t.jobs == EmptyJobs() && t.nextId == 1
    ensures Sound(t)
  {
  }

  /** Blanking a slot breaks nothing. */
  lemma {:induction false} BlankKeepsSound(t: Table, i: nat)
    requires Sound(t) && i < MAX_JOBS
    ensures Sound(t.(jobs := t.jobs[i := BLANK]))
  {
  }

  lemma {:induction false} PlaceKeepsSound(t: Table, i: nat, job: Job, nextId: uint32)
    requires Sound(t) && i < MAX_JOBS && !t.jobs[i].active && SoundJob(job)
    requires job.id < nextId <= INT32_MAX + 1 && t.nextId <= nextId
    requires !TakenId(t.jobs, job.id) && !TakenLabel(t.jobs, job.scope, job.tag)
    ensures Sound(t.(jobs := t.jobs[i := job], nextId := nextId))
  {
  }

  lemma {:induction false} AddKeepsSound(t: Table, r: Request)
    requires Sound(t) && Timed(r)
    ensures Sound(Added(t, r).0)
  {
    if Admits(t, r) {
      var job := Job(true, t.nextId, r.scope, r.tag, r.command, r.clock, r.due, r.interval, r.callback);
      assert !TakenId(t.jobs, t.nextId);
      PlaceKeepsSound(t, FirstFree(t.jobs), job, t.nextId + 1);
      BlankKeepsSound(t, FirstFree(t.jobs));
    }
  }

  /** An add that fails leaves slots and ids as they were; it succeeds exactly when admitted and, if persisted, written. */
  lemma {:induction false} FailedAddChangesNothing(t: Table, r: Request)
    requires Sound(t) && t.on
    ensures var (after, id) := Added(t, r);
            && (id.None? ==> after.jobs == t.jobs && after.nextId == t.nextId)
            && (id.Some? <==> Admits(t, r) && (MustPersist(r) ==> t.writes == [] || t.writes[0] == Written))
            && (id.Some? ==> id.value == t.nextId && TakenLabel(after.jobs, r.scope, r.tag) && TakenId(after.jobs, id.value))
  {
    var i := FirstFree(t.jobs);
    if Admits(t, r) {
      assert t.jobs[i := BLANK] == t.jobs;
      var job := Job(true, t.nextId, r.scope, r.tag, r.command, r.clock, r.due, r.interval, r.callback);
      assert t.jobs[i := job][i] == job;
    }
  }

  /** The table with what is asked for in the first free slot, under the next id. */
  function WithJob(t: Table, r: Request): Table
    requires FirstFree(t.jobs) < |t.jobs| && t.nextId < CLOCK_MODULUS - 1
  {
    t.(jobs := t.jobs[FirstFree(t.jobs) := Job(true, t.nextId, r.scope, r.tag, r.command, r.clock, r.due, r.interval, r.callback)],
       nextId := t.nextId + 1)
  }

  /** An add is admitted exactly when there is a slot, the table with the job in it is sound, and what is to be persisted
      finds storage up. */
  lemma {:induction false} AdmitsIff(t: Table, r: Request)
    requires Sound(t) && Timed(r)
    ensures Admits(t, r) <==> FirstFree(t.jobs) < |t.jobs| && Sound(WithJob(t, r)) && (MustPersist(r) ==> t.ready)
  {
    var i := FirstFree(t.jobs);
    if i < |t.jobs| {
      var after := WithJob(t, r).jobs;
      assert forall k :: 0 <= k < |t.jobs| && k != i ==> after[k] == t.jobs[k];
      if Admits(t, r) {
        AddKeepsSound(t, r);
        PlaceKeepsSound(t, i, after[i], t.nextId + 1);
      } else if Sound(WithJob(t, r)) {
        assert SoundJob(after[i]);
        assert !TakenLabel(t.jobs, r.scope, r.tag);
      }
    }
  }

  lemma {:induction false} RemoveKeepsSound(t: Table, scope: Scope, s: Selector)
    requires Sound(t)
    ensures Sound(Removed(t, scope, s).0)
  {
    var i := Selected(t.jobs, scope, s);
    if i < |t.jobs| { BlankKeepsSound(t, i); }
  }

  /** A remove takes out exactly the selected job, or, failing, nothing. */
  lemma {:induction false} RemoveIsExact(t: Table, scope: Scope, s: Selector)
    requires Sound(t)
    ensures var (after, ok) := Removed(t, scope, s);
            && after.nextId == t.nextId && |after.jobs| == MAX_JOBS
            && (!ok ==> after.jobs == t.jobs)
            && (ok ==> forall k :: 0 <= k < MAX_JOBS ==>
                  after.jobs[k] == if Selects(t.jobs[k], scope, s) then BLANK else t.jobs[k])
            && (ok ==> exists k :: 0 <= k < MAX_JOBS && Selects(t.jobs[k], scope, s))
  {
  }

  /** No coming rewrite of the file is refused. */
  predicate SavesWork(t: Table) {
    t.on && t.ready && (t.writes == [] || t.writes[0] == Written)
  }

  predicate TakenIdIn(jobs: seq<Job>, scope: Scope, id: uint32) {
    exists k :: 0 <= k < |jobs| && jobs[k].active && jobs[k].scope == scope && jobs[k].id == id
  }

  /** A remove by label frees that label in that scope and no other; with storage working it needs only the job. */
  lemma {:induction false} RemoveFreesLabel(t: Table, scope: Scope, tag: string)
    requires Sound(t)
    ensures var (after, ok) := Removed(t, scope, ByLabel(tag));
            && (ok ==> TakenLabel(t.jobs, scope, tag)) && (SavesWork(t) && TakenLabel(t.jobs, scope, tag) ==> ok)
            && (ok ==> forall other, name :: TakenLabel(after.jobs, other, name) <==>
                         TakenLabel(t.jobs, other, name) && !(other == scope && name == tag))
  {
    var (after, ok) := Removed(t, scope, ByLabel(tag));
    if ok {
      var i := Selected(t.jobs, scope, ByLabel(tag));
      forall other, name
        ensures TakenLabel(after.jobs, other, name) <==>
                TakenLabel(t.jobs, other, name) && !(other == scope && name == tag)
      {
        OthersKeepLabels(t, i, after.jobs, other, name);
      }
    }
  }

  lemma {:induction false} OthersKeepLabels(t: Table, i: nat, after: seq<Job>, scope: Scope, tag: string)
    requires Sound(t) && i < MAX_JOBS && t.jobs[i].active && after == t.jobs[i := BLANK]
    ensures TakenLabel(after, scope, tag) <==>
            TakenLabel(t.jobs, scope, tag) && !(t.jobs[i].scope == scope && t.jobs[i].tag == tag)
  {
    if TakenLabel(t.jobs, scope, tag) {
      var k :| 0 <= k < MAX_JOBS && t.jobs[k].active && t.jobs[k].scope == scope && t.jobs[k].tag == tag;
      assert k != i ==> after[k] == t.jobs[k];
    }
  }

  /** A remove by id frees that id, and only where the job is of the scope. */
  lemma {:induction false} RemoveFreesId(t: Table, scope: Scope, id: uint32)
    requires Sound(t)
    ensures var (after, ok) := Removed(t, scope, ById(id));
            && (ok ==> TakenIdIn(t.jobs, scope, id)) && (SavesWork(t) && TakenIdIn(t.jobs, scope, id) ==> ok)
            && (ok ==> forall other :: TakenId(after.jobs, other) <==> TakenId(t.jobs, other) && other != id)
  {
    var (after, ok) := Removed(t, scope, ById(id));
    if ok {
      var i := Selected(t.jobs, scope, ById(id));
      forall other ensures TakenId(after.jobs, other) <==> TakenId(t.jobs, other) && other != id {
        if TakenId(t.jobs, other) {
          var k :| 0 <= k < MAX_JOBS && t.jobs[k].active && t.jobs[k].id == other;
          assert k != i ==> after.jobs[k] == t.jobs[k];
        }
      }
    }
  }

  /** A clear that works frees every label of its scope and none of the other. */
  lemma {:induction false} ClearFreesScope(t: Table, scope: Scope)
    requires Sound(t)
    ensures var (after, ok) := ClearedScope(t, scope);
            && (SavesWork(t) ==> ok)
            && (ok ==> forall other, name :: TakenLabel(after.jobs, other, name) <==>
                         other != scope && TakenLabel(t.jobs, other, name))
            && (ok ==> forall k :: 0 <= k < MAX_JOBS && t.jobs[k].active && t.jobs[k].scope != scope ==>
                         after.jobs[k] == t.jobs[k])
  {
    var (after, ok) := ClearedScope(t, scope);
    if ok {
      forall other, name ensures TakenLabel(after.jobs, other, name) <==> other != scope && TakenLabel(t.jobs, other, name) {
        if other != scope && TakenLabel(t.jobs, other, name) {
          var k :| 0 <= k < MAX_JOBS && t.jobs[k].active && t.jobs[k].scope == other && t.jobs[k].tag == name;
          assert after.jobs[k] == t.jobs[k];
        }
      }
    }
  }

  lemma {:induction false} ClearKeepsSound(t: Table, scope: Scope)
    requires Sound(t)
    ensures Sound(ClearedScope(t, scope).0)
  {
    var after := ClearedScope(t, scope).0;
    assert forall k :: 0 <= k < MAX_JOBS ==> after.jobs[k] == t.jobs[k] || after.jobs[k] == BLANK;
  }

  /** A clear that fails leaves every slot; one that works leaves exactly the other scope, and the file says the same. */
  lemma {:induction false} ClearIsAllOrNothing(t: Table, scope: Scope)
    requires Sound(t)
    ensures var (after, ok) := ClearedScope(t, scope);
            && after.nextId == t.nextId
            && (!ok ==> after.jobs == t.jobs)
            && (ok ==> after.jobs == Without(t.jobs, scope))
            && (ok && PersistedInScope(t.jobs, scope) ==> after.file == Holds(Records(after.jobs, None)))
            && (!PersistedInScope(t.jobs, scope) || !t.on || !t.ready ==> after.file == t.file)
  {
    RecordsWithout(t.jobs, scope);
  }

  /** The first outcome of the coming writes, which one rewrite meets. */
  function NextOutcome(t: Table): WriteOutcome {
    if t.writes == [] then Written else t.writes[0]
  }

  /** This ending of a rewrite leaves just what was in the file: the old bytes, or new bytes that are no different. */
  predicate LeavesAsItWas(file: JobsFile, outcome: WriteOutcome, records: seq<Stored>) {
    match outcome
    case Written => file == Holds(records)
    case CutAfter => file == Holds(records)
    case Failed(left) => RemainsAsItWas(file, left, records)
    case CutShort(left) => RemainsAsItWas(file, left, records)
  }

  predicate RemainsAsItWas(file: JobsFile, left: Remains, records: seq<Stored>) {
    || left == OldFile || (left == NoFile && file == Absent) || (left == TornFile && file == Garbled)
    || (left == NewFile && file == Holds(records))
  }

  /** After a clear that failed the file is as it was if and only if no write was attempted, or the write left it so. */
  lemma {:induction false} FailedClearKeepsFileIff(t: Table, scope: Scope)
    requires !ClearedScope(t, scope).1
    ensures PersistedInScope(t.jobs, scope)
    ensures ClearedScope(t, scope).0.file == t.file <==>
            !t.on || !t.ready || LeavesAsItWas(t.file, NextOutcome(t), Records(t.jobs, Some(scope)))
  {
  }

  lemma {:induction false} FewerRecords(jobs: seq<Job>, scope: Scope)
    ensures |Records(jobs, Some(scope))| <= |Records(jobs, None)|
    ensures PersistedInScope(jobs, scope) ==> |Records(jobs, Some(scope))| < |Records(jobs, None)|
    decreases |jobs|
  {
    if jobs != [] {
      FewerRecords(jobs[1..], scope);
      if PersistedInScope(jobs, scope) && !(Persists(jobs[0]) && jobs[0].scope == scope) {
        var k :| 0 <= k < |jobs| && Persists(jobs[k]) && jobs[k].scope == scope;
        assert jobs[1..][k - 1] == jobs[k];
      }
    }
  }

  /** Where file and memory agreed, a failed clear keeps the file only if nothing was tried or the old bytes were left. */
  lemma {:induction false} FailedClearKeepsSavedFileIff(t: Table, scope: Scope)
    requires !ClearedScope(t, scope).1 && t.file == Holds(Records(t.jobs, None))
    ensures ClearedScope(t, scope).0.file == t.file <==>
            !t.on || !t.ready || NextOutcome(t) in {Failed(OldFile), CutShort(OldFile)}
  {
    FailedClearKeepsFileIff(t, scope);
    FewerRecords(t.jobs, scope);
  }

  /** Against the promise that a failure leaves file and memory as they were: the rewrite truncates the file first. */
  lemma {:induction false} FailedClearTearsFile(t: Table, scope: Scope)
    requires PersistedInScope(t.jobs, scope) && t.on && t.ready && t.file.Holds?
    requires t.writes != [] && t.writes[0] == Failed(TornFile)
    ensures var (after, ok) := ClearedScope(t, scope);
            !ok && after.jobs == t.jobs && after.file == Garbled && after.file != t.file
  {
  }

  lemma {:induction false} RecordsWithout(jobs: seq<Job>, scope: Scope)
    ensures Records(Without(jobs, scope), None) == Records(jobs, Some(scope))
    decreases |jobs|
  {
    if jobs != [] {
      assert Without(jobs, scope)[1..] == Without(jobs[1..], scope);
      RecordsWithout(jobs[1..], scope);
    }
  }

  lemma {:induction false} LoadRecordKeepsSound(t: Table, r: Stored)
    requires Sound(t)
    ensures Sound(LoadedRecord(t, r)) && LoadedRecord(t, r).nextId >= t.nextId
  {
    var id := IdFor(t, r);
    if LoadedRecord(t, r) != t {
      var scope := ParseScope(r.scope).value;
      assert !TakenId(t.jobs, id);
      PlaceKeepsSound(t, FirstFree(t.jobs), Job(true, id, scope, r.tag, r.command, Wall, r.due, r.interval, None),
                      if t.nextId <= id then id + 1 else t.nextId);
    }
  }

  lemma {:induction false} LoadKeepsSound(t: Table, records: seq<Stored>)
    requires Sound(t)
    ensures Sound(LoadedRecords(t, records)) && LoadedRecords(t, records).nextId >= t.nextId
    decreases |records|
  {
    if records != [] {
      LoadRecordKeepsSound(t, records[0]);
      LoadKeepsSound(LoadedRecord(t, records[0]), records[1..]);
    }
  }

  predicate IsLoaded(job: Job) {
    job.clock == Wall && job.callback.None?
  }

  /** A load puts wall-clock commands into free slots and touches no other. */
  lemma {:induction false} LoadFillsFreeSlots(t: Table, records: seq<Stored>)
    requires |t.jobs| == MAX_JOBS
    ensures var after := LoadedRecords(t, records).jobs;
            forall k :: 0 <= k < MAX_JOBS ==> after[k] == t.jobs[k] || (!t.jobs[k].active && IsLoaded(after[k]))
    decreases |records|
  {
    if records != [] {
      var next := LoadedRecord(t, records[0]);
      LoadFillsFreeSlots(next, records[1..]);
      assert forall k :: 0 <= k < MAX_JOBS ==> next.jobs[k] == t.jobs[k] || (!t.jobs[k].active && IsLoaded(next.jobs[k]));
    }
  }

  lemma {:induction false} FireKeepsSound(t: Table, i: nat, now: Now, last: uint32)
    requires Sound(t) && i < MAX_JOBS
    ensures Sound(Fired(t, i, now, last).0) && Fired(t, i, now, last).0.nextId == t.nextId
  {
    BlankKeepsSound(t, i);
    var job := t.jobs[i];
    if job.active && job.interval != 0 {
      forall due: uint32 ensures Sound(t.(jobs := t.jobs[i := job.(due := due)])) {
        RetimeKeepsSound(t, i, due);
      }
    }
  }

  lemma {:induction false} RetimeKeepsSound(t: Table, i: nat, due: uint32)
    requires Sound(t) && i < MAX_JOBS && t.jobs[i].active && t.jobs[i].interval != 0
    ensures Sound(t.(jobs := t.jobs[i := t.jobs[i].(due := due)]))
  {
  }

  lemma {:induction false} ApplyKeepsSound(t: Table, op: Op)
    requires Sound(t) && (op.Add? ==> Timed(op.request))
    ensures Sound(Applied(t, op)) && Applied(t, op).nextId >= t.nextId
  {
    match op
    case Add(r) => AddKeepsSound(t, r);
    case Remove(scope, s) => RemoveKeepsSound(t, scope, s);
    case Clear(scope) => ClearKeepsSound(t, scope);
    case Mount(read) => if t.file.Holds? { LoadKeepsSound(t.(ready := true), t.file.records); }
    case Reenter =>
    case LosePower =>
  }

  /** Every form hands `add` a timed request, so every table reached through the forms is sound. */
  lemma {:induction false} ScheduleKeepsSound(t: Table, tag: string, target: Target, form: Form, now: Now)
    requires Sound(t)
    ensures Sound(Scheduled(t, tag, target, form, now).0)
    ensures Deadline(form, now).Some? ==> Timed(RequestFor(tag, target, Deadline(form, now).value))
  {
    if Deadline(form, now).Some? { AddKeepsSound(t, RequestFor(tag, target, Deadline(form, now).value)); }
  }

  // ----- saving and loading again

  /** The persisted jobs, in slot order. */
  function PersistedJobs(jobs: seq<Job>): (kept: seq<Job>)
    ensures |kept| <= |jobs|
  {
    if jobs == [] then []
    else (if Persists(jobs[0]) then [jobs[0]] else []) + PersistedJobs(jobs[1..])
  }

  lemma {:induction false} PersistedJobsAre(jobs: seq<Job>, job: Job)
    ensures job in PersistedJobs(jobs) <==> job in jobs && job.active && job.clock == Wall && job.callback.None?
    decreases |jobs|
  {
    if jobs != [] {
      PersistedJobsAre(jobs[1..], job);
      assert job in jobs <==> job == jobs[0] || job in jobs[1..];
    }
  }

  /** Jobs in the first slots, blanks in the rest. */
  function Packed(jobs: seq<Job>): (slots: seq<Job>)
    requires |jobs| <= MAX_JOBS
    ensures |slots| == MAX_JOBS
  {
    jobs + seq(MAX_JOBS - |jobs|, _ => BLANK)
  }

  lemma {:induction false} PackedFirstFree(jobs: seq<Job>)
    requires |jobs| <= MAX_JOBS && forall k :: 0 <= k < |jobs| ==> jobs[k].active
    ensures FirstFree(Packed(jobs)) == |jobs|
  {
    var slots := Packed(jobs);
    assert forall k :: 0 <= k < |jobs| ==> slots[k] == jobs[k];
    assert |jobs| < MAX_JOBS ==> slots[|jobs|] == BLANK;
  }

  /** One record of a persisted job, loaded behind those already loaded, becomes that job again. */
  lemma {:induction false} LoadOne(t: Table, done: seq<Job>, job: Job)
    requires |done| < MAX_JOBS && t.jobs == Packed(done) && SoundJob(job) && Persists(job)
    requires forall k :: 0 <= k < |done| ==> done[k].active && done[k].id != job.id
    requires forall k :: 0 <= k < |done| ==> done[k].scope == job.scope ==> done[k].tag != job.tag
    ensures var after := LoadedRecord(t, Record(job));
            after == t.(jobs := Packed(done + [job]), nextId := if t.nextId <= job.id then job.id + 1 else t.nextId)
  {
    PackedFirstFree(done);
    assert forall k :: 0 <= k < MAX_JOBS && t.jobs[k].active ==> k < |done| && t.jobs[k] == done[k];
    assert !TakenId(t.jobs, job.id);
    assert !TakenLabel(t.jobs, job.scope, job.tag);
    assert Packed(done)[|done| := job] == Packed(done + [job]);
  }

  /** No two of these jobs share an id, or a label within a scope. */
  predicate Compatible(jobs: seq<Job>) {
    DistinctIds(jobs) && DistinctLabels(jobs)
  }

  lemma {:induction false} DropFromCompatible(done: seq<Job>, rest: seq<Job>)
    requires rest != [] && Compatible(done + rest)
    ensures Compatible(done + rest[1..])
  {
    var all, fewer := done + rest, done + rest[1..];
    assert forall k :: 0 <= k < |done| ==> fewer[k] == all[k];
    assert forall k :: |done| <= k < |fewer| ==> fewer[k] == all[k + 1];
  }

  lemma {:induction false} HeadCompatible(done: seq<Job>, rest: seq<Job>)
    requires rest != [] && Compatible(done + rest) && rest[0].active
    ensures forall k :: 0 <= k < |done| && done[k].active ==> done[k].id != rest[0].id
    ensures forall k :: 0 <= k < |done| && done[k].active && done[k].scope == rest[0].scope ==> done[k].tag != rest[0].tag
  {
    var all := done + rest;
    assert all[|done|] == rest[0];
    assert forall k :: 0 <= k < |done| ==> all[k] == done[k];
  }

  lemma {:induction false} LoadRest(t: Table, done: seq<Job>, rest: seq<Job>)
    requires |done| + |rest| <= MAX_JOBS && t.jobs == Packed(done) && Compatible(done + rest)
    requires forall k :: 0 <= k < |done| ==> done[k].active
    requires forall k :: 0 <= k < |rest| && rest[k].active ==> SoundJob(rest[k])
    ensures LoadedRecords(t, Records(rest, None)).jobs == Packed(done + PersistedJobs(rest))
    decreases |rest|, 1
  {
    if rest == [] {
      assert done + PersistedJobs(rest) == done;
    } else if Persists(rest[0]) {
      LoadNext(t, done, rest);
    } else {
      var tail := rest[1..];
      DropFromCompatible(done, rest);
      LoadRest(t, done, tail);
      assert Records(rest, None) == Records(tail, None);
      assert PersistedJobs(rest) == PersistedJobs(tail);
    }
  }

  lemma {:induction false} LoadNext(t: Table, done: seq<Job>, rest: seq<Job>)
    requires rest != [] && Persists(rest[0])
    requires |done| + |rest| <= MAX_JOBS && t.jobs == Packed(done) && Compatible(done + rest)
    requires forall k :: 0 <= k < |done| ==> done[k].active
    requires forall k :: 0 <= k < |rest| && rest[k].active ==> SoundJob(rest[k])
    ensures LoadedRecords(t, Records(rest, None)).jobs == Packed(done + PersistedJobs(rest))
    decreases |rest|, 0
  {
    var job, tail := rest[0], rest[1..];
    HeadCompatible(done, rest);
    LoadOne(t, done, job);
    MovedOver(done, rest);
    LoadRest(LoadedRecord(t, Record(job)), done + [job], tail);
  }

  lemma {:induction false} AppendAssociates<T>(a: seq<T>, x: T, b: seq<T>)
    ensures a + [x] + b == a + ([x] + b)
  {
  }

  lemma {:induction false} MovedOver(done: seq<Job>, rest: seq<Job>)
    requires rest != [] && Persists(rest[0])
    ensures done + [rest[0]] + rest[1..] == done + rest
    ensures done + [rest[0]] + PersistedJobs(rest[1..]) == done + PersistedJobs(rest)
    ensures Records(rest, None) != [] && Records(rest, None)[0] == Record(rest[0])
    ensures Records(rest, None)[1..] == Records(rest[1..], None)
  {
    var kept := PersistedJobs(rest[1..]);
    AppendAssociates(done, rest[0], rest[1..]);
    assert [rest[0]] + rest[1..] == rest;
    AppendAssociates(done, rest[0], kept);
    assert PersistedJobs(rest) == [rest[0]] + kept;
    var records := Records(rest[1..], None);
    assert Records(rest, None) == [Record(rest[0])] + records;
  }

  lemma {:induction false} RestoreFromRecords(t: Table, blank: Table)
    requires Sound(t) && blank.jobs == Packed([])
    ensures LoadedRecords(blank, Records(t.jobs, None)).jobs == Packed(PersistedJobs(t.jobs))
  {
    assert [] + t.jobs == t.jobs;
    LoadRest(blank, [], t.jobs);
    assert [] + PersistedJobs(t.jobs) == PersistedJobs(t.jobs);
  }

  /** Loading what a sound table wrote, into an empty table, restores exactly its persisted jobs, ids and all. */
  lemma {:induction false} SaveThenLoad(t: Table, blank: Table)
    requires Sound(t) && t.on && t.ready && (t.writes == [] || t.writes[0] == Written)
    requires blank.jobs == EmptyJobs() && blank.nextId == 1 && blank.on && !blank.ready
    requires blank.file == WriteJobs(t, None).0.file
    ensures Mounted(blank, true).jobs == Packed(PersistedJobs(t.jobs))
    ensures Sound(Mounted(blank, true))
  {
    assert EmptyJobs() == Packed([]);
    RestoreFromRecords(t, blank.(ready := true));
    EmptyIsSound(blank);
    LoadKeepsSound(blank.(ready := true), Records(t.jobs, None));
  }
}
