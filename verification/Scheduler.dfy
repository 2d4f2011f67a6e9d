/** The scheduler as it is written: a fixed array of slots changed in place, a file rewritten whole, and the tick loop. */
module Scheduler {
  import opened Common
  import opened SchedulerTable
  import opened SchedulerInvariants

  class Scheduler {
    const slots: array<Job>
    var nextId: uint32
    var nextTimeoutId: uint32
    var storageReady: bool
    var dispatching: bool
    // The jobs file, how its coming rewrites will end, and power: what the flash contributes.
    var file: JobsFile
    var writes: seq<WriteOutcome>
    var on: bool

    ghost predicate Valid()
      reads this
    {
      slots.Length == MAX_JOBS
    }

    ghost function View(): Table
      reads this, slots
      requires Valid()
    {
      Table(slots[..], nextId, storageReady, file, writes, on)
    }

    constructor (file: JobsFile, writes: seq<WriteOutcome>)
      ensures Valid() && fresh(slots) && !dispatching && nextTimeoutId == 0
      ensures View() == Table(EmptyJobs(), 1, false, file, writes, true)
    {
      slots := new Job[MAX_JOBS](_ => BLANK);
      nextId, nextTimeoutId, storageReady, dispatching := 1, 0, false, false;
      this.file, this.writes, on := file, writes, true;
      new;
      assert slots[..] == EmptyJobs();
    }

    /** Rewrites the file with the persisted jobs, leaving out one scope when asked. */
    method WriteJobs(omit: Option<Scope>) returns (ok: bool)
      requires Valid()
      modifies this`file, this`writes, this`on
      ensures (View(), ok) == SchedulerTable.WriteJobs(old(View()), omit)
    {
      if !storageReady || !on {
        return false;
      }
      var records := CollectRecords(omit);
      ok := Rewrite(records);
    }

    method CollectRecords(omit: Option<Scope>) returns (records: seq<Stored>)
      requires Valid()
      ensures records == Records(slots[..], omit)
    {
      records := [];
      ghost var jobs := slots[..];
      assert jobs[0..] == jobs;
      for k := 0 to MAX_JOBS
        invariant Records(jobs, omit) == records + Records(jobs[k..], omit) && jobs == slots[..]
      {
        RecordsFrom(jobs, k, omit);
        if Persists(slots[k]) && omit != Some(slots[k].scope) {
          AppendAssociates(records, Record(slots[k]), Records(jobs[k + 1..], omit));
          records := records + [Record(slots[k])];
        }
      }
    }

    /** What the flash makes of one non-atomic rewrite. */
    method Rewrite(records: seq<Stored>) returns (ok: bool)
      modifies this`file, this`writes, this`on
      ensures var outcome := if old(writes) == [] then Written else old(writes)[0];
              && writes == (if old(writes) == [] then [] else old(writes)[1..])
              && ok == outcome.Written?
              && on == (old(on) && (outcome.Written? || outcome.Failed?))
              && file == match outcome
                         case Written => Holds(records)
                         case Failed(left) => Left(old(file), left, records)
                         case CutShort(left) => Left(old(file), left, records)
                         case CutAfter => Holds(records)
    {
      var outcome := if writes == [] then Written else writes[0];
      writes := if writes == [] then [] else writes[1..];
      ok := outcome.Written?;
      on := on && (outcome.Written? || outcome.Failed?);
      file :=
        if outcome.Written? || outcome.CutAfter? then Holds(records)
        else Left(file, outcome.left, records);
    }

    method LabelTaken(scope: Scope, tag: string) returns (taken: bool)
      requires Valid()
      ensures taken <==> TakenLabel(slots[..], scope, tag)
    {
      for k := 0 to MAX_JOBS
        invariant forall m :: 0 <= m < k ==> !(slots[m].active && slots[m].scope == scope && slots[m].tag == tag)
      {
        if slots[k].active && slots[k].scope == scope && slots[k].tag == tag {
          assert slots[..][k].active;
          return true;
        }
      }
      taken := false;
    }

    method FindFree() returns (i: nat)
      requires Valid()
      ensures i == FirstFree(slots[..])
    {
      i := 0;
      while i < MAX_JOBS && slots[i].active
        invariant i <= MAX_JOBS
        invariant forall k :: 0 <= k < i ==> slots[k].active
      {
        i := i + 1;
      }
      FirstFreeIs(slots[..], i);
    }

    /** The single place a job is created; a job that cannot be saved is not kept, and its id is given back. */
    method Add(r: Request) returns (id: Option<uint32>)
      requires Valid()
      modifies this, slots
      ensures Valid() && (View(), id) == Added(old(View()), r)
      ensures dispatching == old(dispatching) && nextTimeoutId == old(nextTimeoutId)
    {
      if (r.command != "") == r.callback.Some? {
        return None;
      }
      if r.tag == "" || |r.tag| > MAX_LABEL_LENGTH || |r.command| > MAX_COMMAND_LENGTH {
        return None;
      }
      var persisted := r.clock == Wall && r.command != "";
      if persisted && !storageReady {
        return None;
      }
      if nextId == 0 || nextId > INT32_MAX {
        return None;
      }
      var taken := LabelTaken(r.scope, r.tag);
      if taken {
        return None;
      }
      var i := FindFree();
      if i == MAX_JOBS {
        return None;
      }
      id := Place(i, r, persisted);
    }

    method Place(i: nat, r: Request, persisted: bool) returns (id: Option<uint32>)
      requires Valid() && i < MAX_JOBS && 0 < nextId <= INT32_MAX && persisted == MustPersist(r)
      modifies this`nextId, this`file, this`writes, this`on, slots
      ensures Valid()
      ensures var t := old(View());
              var job := Job(true, t.nextId, r.scope, r.tag, r.command, r.clock, r.due, r.interval, r.callback);
              var placed := t.(jobs := t.jobs[i := job], nextId := t.nextId + 1);
              var (after, ok) := SchedulerTable.WriteJobs(placed, None);
              (View(), id) == if !persisted then (placed, Some(t.nextId))
                              else if ok then (after, Some(t.nextId))
                              else (after.(jobs := t.jobs[i := BLANK], nextId := t.nextId), None)
    {
      ghost var was := slots[..];
      slots[i] := Job(true, nextId, r.scope, r.tag, r.command, r.clock, r.due, r.interval, r.callback);
      nextId := nextId + 1;
      ghost var placed := slots[..];
      if persisted {
        var ok := WriteJobs(None);
        if !ok {
          slots[i] := BLANK;
          nextId := nextId - 1;
          assert slots[..] == was[i := BLANK];
          return None;
        }
      }
      id := Some(nextId - 1);
    }

    /** Each clock and repeat shape computes its deadline, for either target. */
    method Schedule(tag: string, target: Target, form: Form, now: Now) returns (id: Option<uint32>)
      requires Valid()
      modifies this, slots
      ensures Valid() && (View(), id) == Scheduled(old(View()), tag, target, form, now)
      ensures dispatching == old(dispatching)
    {
      var deadline := Deadline(form, now);
      if deadline.None? {
        return None;
      }
      id := Add(RequestFor(tag, target, deadline.value));
    }

    /** Empties a slot, saving if its job was persisted; a failed save puts the job back. */
    method RemoveJob(i: nat) returns (ok: bool)
      requires Valid() && i < MAX_JOBS
      modifies this`file, this`writes, this`on, slots
      ensures Valid() && (View(), ok) == RemovedAt(old(View()), i)
    {
      ghost var was := slots[..];
      var persisted := Persists(slots[i]);
      var previous := slots[i];
      slots[i] := BLANK;
      ok := true;
      if persisted {
        ok := WriteJobs(None);
        if !ok {
          slots[i] := previous;
          assert slots[..] == was;
        }
      }
    }

    method Remove(scope: Scope, s: Selector) returns (ok: bool)
      requires Valid()
      modifies this`file, this`writes, this`on, slots
      ensures Valid() && (View(), ok) == Removed(old(View()), scope, s)
    {
      var i := 0;
      while i < MAX_JOBS && !Selects(slots[i], scope, s)
        invariant i <= MAX_JOBS
        invariant forall k :: 0 <= k < i ==> !Selects(slots[k], scope, s)
      {
        i := i + 1;
      }
      SelectedIs(slots[..], scope, s, i);
      if i == MAX_JOBS {
        return false;
      }
      ok := RemoveJob(i);
    }

    method HasPersisted(scope: Scope) returns (any: bool)
      requires Valid()
      ensures any <==> PersistedInScope(slots[..], scope)
    {
      any := false;
      ghost var at := 0;
      for k := 0 to MAX_JOBS
        invariant if any then at < k && Persists(slots[at]) && slots[at].scope == scope
                  else forall m :: 0 <= m < k ==> !(Persists(slots[m]) && slots[m].scope == scope)
      {
        if Persists(slots[k]) && slots[k].scope == scope {
          any, at := true, k;
        }
      }
      assert any ==> Persists(slots[..][at]);
    }

    /** Writes the file without the scope first; memory follows only if that worked. */
    method Clear(scope: Scope) returns (ok: bool)
      requires Valid()
      modifies this`file, this`writes, this`on, slots
      ensures Valid() && (View(), ok) == ClearedScope(old(View()), scope)
    {
      ghost var was := slots[..];
      ok := true;
      var persisted := HasPersisted(scope);
      if persisted {
        ok := WriteJobs(Some(scope));
        if !ok {
          return;
        }
      }
      ghost var t := View();
      for k := 0 to MAX_JOBS
        invariant View() == t.(jobs := slots[..])
        invariant forall m :: 0 <= m < k ==> slots[m] == Without(was, scope)[m]
        invariant forall m :: k <= m < MAX_JOBS ==> slots[m] == was[m]
      {
        if slots[k].active && slots[k].scope == scope {
          slots[k] := BLANK;
        }
      }
      assert slots[..] == Without(was, scope);
    }

    /** Storage comes up: the file, if it can be read, is loaded into whatever table there is. */
    method Mount(read: bool)
      requires Valid()
      modifies this`storageReady, this`nextId, slots
      ensures Valid() && View() == Mounted(old(View()), read)
    {
      if storageReady || !on {
        return;
      }
      storageReady := true;
      if !read || !file.Holds? {
        return;
      }
      ghost var t := View();
      for k := 0 to |file.records|
        invariant View() == t.(jobs := slots[..], nextId := nextId)
        invariant LoadedRecords(View(), file.records[k..]) == LoadedRecords(t, file.records)
      {
        assert file.records[k..][1..] == file.records[k + 1..];
        LoadRecord(file.records[k]);
      }
    }

    method LoadRecord(r: Stored)
      requires Valid()
      modifies this`nextId, slots
      ensures Valid() && View() == LoadedRecord(old(View()), r)
    {
      var scope := ParseScope(r.scope);
      if scope.None? {
        return;
      }
      if !(0 < |r.tag| <= MAX_LABEL_LENGTH && 0 < |r.command| <= MAX_COMMAND_LENGTH) || (r.due == 0 && r.interval == 0) {
        return;
      }
      var duplicateLabel, duplicateId := ScanDuplicates(scope.value, r);
      if duplicateLabel {
        return;
      }
      var id := if r.id == 0 || r.id > INT32_MAX || duplicateId then nextId else r.id;
      if id == 0 || id > INT32_MAX {
        return;
      }
      var i := FindFree();
      if i < MAX_JOBS {
        ghost var was := slots[..];
        slots[i] := Job(true, id, scope.value, r.tag, r.command, Wall, r.due, r.interval, None);
        if nextId <= id {
          nextId := id + 1;
        }
        assert slots[..] == was[i := slots[i]];
      }
    }

    method ScanDuplicates(scope: Scope, r: Stored) returns (duplicateLabel: bool, duplicateId: bool)
      requires Valid()
      ensures duplicateLabel <==> TakenLabel(slots[..], scope, r.tag)
      ensures duplicateId <==> TakenId(slots[..], r.id)
    {
      duplicateLabel, duplicateId := false, false;
      for k := 0 to MAX_JOBS
        invariant duplicateLabel <==>
          exists m :: 0 <= m < k && slots[m].active && slots[m].scope == scope && slots[m].tag == r.tag
        invariant duplicateId <==> exists m :: 0 <= m < k && slots[m].active && slots[m].id == r.id
      {
        duplicateLabel := duplicateLabel || (slots[k].active && slots[k].scope == scope && slots[k].tag == r.tag);
        duplicateId := duplicateId || (slots[k].active && slots[k].id == r.id);
      }
      assert forall m :: 0 <= m < MAX_JOBS ==> slots[..][m] == slots[m];
    }

    /** One turn of the tick loop up to the unlocking: the job to run, already off the table or rescheduled. */
    method Fire(i: nat, now: Now, last: uint32) returns (run: Option<Job>)
      requires Valid() && i < MAX_JOBS
      modifies this`file, this`writes, this`on, slots
      ensures Valid() && (View(), run) == Fired(old(View()), i, now, last)
    {
      ghost var was := slots[..];
      var job := slots[i];
      if !job.active || job.id > last {
        return None;
      }
      if job.clock == Wall {
        if now.wall.None? {
          return None;
        }
        if job.due == 0 && job.interval != 0 {
          slots[i] := job.(due := Plus(now.wall.value, job.interval));
          return None;
        }
        if now.wall.value < job.due {
          return None;
        }
      } else if Before(now.monotonic, job.due) {
        return None;
      }
      var persistRemoval := Persists(job) && job.interval == 0;
      slots[i] := Advanced(job, now);
      if persistRemoval {
        var ok := WriteJobs(None);
        if !ok {
          slots[i] := job;
          assert slots[..] == was;
          return None;
        }
      }
      run := Some(job);
    }

    /** What happens to the table while it is unlocked; a tick asked for meanwhile returns at once. */
    method Interfere(ops: seq<Op>)
      requires Valid() && dispatching
      modifies this, slots
      ensures Valid() && dispatching && View() == AppliedAll(old(View()), ops)
      decreases !dispatching, 1
    {
      ghost var t := View();
      for k := 0 to |ops|
        invariant Valid() && dispatching
        invariant AppliedAll(View(), ops[k..]) == AppliedAll(t, ops)
      {
        assert ops[k..][1..] == ops[k + 1..];
        match ops[k] {
          case Add(r) => var _ := Add(r);
          case Remove(scope, s) => var _ := Remove(scope, s);
          case Clear(scope) => var _ := Clear(scope);
          case Mount(read) => Mount(read);
          case Reenter =>
            var ran := Tick(None, Now(0, None), []);
            assert ran == [];
          case LosePower => on := false;
        }
      }
    }

    /** One turn of the loop: fire slot i, and if a job is to run, let the table be unlocked while it does. */
    method Turn(i: nat, now: Now, last: uint32, plan: seq<seq<Op>>) returns (run: Option<Job>, rest: seq<seq<Op>>)
      requires Valid() && dispatching && i < MAX_JOBS && on
      modifies this, slots
      ensures Valid() && dispatching
      ensures var before, after := Ticked(old(View()), i, now, last, plan), Ticked(View(), i + 1, now, last, rest);
              before.0 == after.0 && before.1 == if run.Some? then [run.value] + after.1 else after.1
      decreases !dispatching, 2
    {
      run := Fire(i, now, last);
      rest := plan;
      if run.Some? {
        Interfere(if plan == [] then [] else plan[0]);
        rest := if plan == [] then [] else plan[1..];
      }
    }

    /** Runs what is due. `retry` says whether storage comes up first, and `plan` what each callback, and anyone else, does
        to the table while it is unlocked. */
    method Tick(retry: Option<bool>, now: Now, plan: seq<seq<Op>>) returns (ran: seq<Job>)
      requires Valid()
      modifies this, slots
      ensures Valid() && dispatching == old(dispatching)
      ensures old(dispatching) ==> View() == old(View()) && ran == []
      ensures !old(dispatching) ==> (View(), ran) == WholeTick(old(View()), retry, now, plan)
      decreases !dispatching, 0
    {
      if dispatching {
        return [];
      }
      if retry.Some? {
        Mount(retry.value);
      }
      ran := Dispatch(now, plan);
    }

    /** The tick proper: no other tick runs until it is over. */
    method Dispatch(now: Now, plan: seq<seq<Op>>) returns (ran: seq<Job>)
      requires Valid() && !dispatching
      modifies this, slots
      ensures Valid() && !dispatching && (View(), ran) == Ticked(old(View()), 0, now, LastId(old(View())), plan)
      decreases false, 4
    {
      dispatching := true;
      ran := RunSlots(now, (nextId - 1) % CLOCK_MODULUS, plan);
      dispatching := false;
    }

    /** The loop over the slots, in order, while there is power. */
    method RunSlots(now: Now, last: uint32, plan: seq<seq<Op>>) returns (ran: seq<Job>)
      requires Valid() && dispatching
      modifies this, slots
      ensures Valid() && dispatching && (View(), ran) == Ticked(old(View()), 0, now, last, plan)
      decreases !dispatching, 3
    {
      ran := [];
      var i, rest := 0, plan;
      ghost var whole := Ticked(View(), 0, now, last, plan);
      ghost var ahead := whole;
      assert ran + ahead.1 == whole.1;
      while i < MAX_JOBS && on
        invariant i <= MAX_JOBS && Valid() && dispatching
        invariant ahead == Ticked(View(), i, now, last, rest)
        invariant whole == (ahead.0, ran + ahead.1)
      {
        var run;
        run, rest := Turn(i, now, last, rest);
        i := i + 1;
        ahead := Ticked(View(), i, now, last, rest);
        if run.Some? {
          AppendAssociates(ran, run.value, ahead.1);
          ran := ran + [run.value];
        }
      }
      assert ran + [] == ran;
    }
  }

  lemma {:induction false} RecordsFrom(jobs: seq<Job>, k: nat, omit: Option<Scope>)
    requires k < |jobs|
    ensures Records(jobs[k..], omit) ==
            if Persists(jobs[k]) && omit != Some(jobs[k].scope) then [Record(jobs[k])] + Records(jobs[k + 1..], omit)
            else Records(jobs[k + 1..], omit)
  {
    assert jobs[k..][1..] == jobs[k + 1..];
  }

  lemma {:induction false} FirstFreeIs(jobs: seq<Job>, i: nat)
    requires i <= |jobs| && (forall k :: 0 <= k < i ==> jobs[k].active) && (i < |jobs| ==> !jobs[i].active)
    ensures FirstFree(jobs) == i
  {
    var f := FirstFree(jobs);
    assert !(f < i) && !(i < f);
  }

  lemma {:induction false} SelectedIs(jobs: seq<Job>, scope: Scope, s: Selector, i: nat)
    requires i <= |jobs| && (forall k :: 0 <= k < i ==> !Selects(jobs[k], scope, s))
    requires i < |jobs| ==> Selects(jobs[i], scope, s)
    ensures Selected(jobs, scope, s) == i
  {
    var f := Selected(jobs, scope, s);
    assert !(f < i) && !(i < f);
  }
}
