/** The job table of the scheduler as a value: what adding, removing, clearing, saving, loading and firing make of it. */
module SchedulerTable {
  import opened Common

  const MAX_JOBS := 30
  const MAX_LABEL_LENGTH := 64
  const MAX_COMMAND_LENGTH := 512
  const CLOCK_MODULUS := 0x1_0000_0000

  datatype Clock = Wall | Monotonic
  datatype Scope = Managed | User

  /** A slot of the table. A callback is known by a number; an interval of zero means run once. */
  datatype Job = Job(active: bool, id: uint32, scope: Scope, tag: string, command: string, clock: Clock,
                     due: uint32, interval: uint32, callback: Option<nat>)

  const BLANK := Job(false, 0, Managed, "", "", Monotonic, 0, 0, None)

  /** A persisted job as the file spells it. */
  datatype Stored = Stored(id: uint32, scope: string, tag: string, command: string, due: uint32, interval: uint32)

  datatype JobsFile = Absent | Garbled | Holds(records: seq<Stored>)

  /** What a rewrite that did not complete leaves: the file is truncated before it is filled, and a close may fail on a
      file that is whole. */
  datatype Remains = OldFile | NoFile | TornFile | NewFile

  /** How one rewrite of the file ends: reported done, reported failed, or cut off by power before or after completing. */
  datatype WriteOutcome = Written | Failed(left: Remains) | CutShort(left: Remains) | CutAfter

  /** What asking for a job says. */
  datatype Request = Request(scope: Scope, tag: string, command: string, clock: Clock, due: uint32, interval: uint32,
                             callback: Option<nat>)

  /** The slots, the next id, whether storage is mounted, the file, how coming writes will end, and power. */
  datatype Table = Table(jobs: seq<Job>, nextId: uint32, ready: bool, file: JobsFile, writes: seq<WriteOutcome>, on: bool)

  /** Only what can be executed from text after a reboot. */
  predicate Persists(job: Job) {
    job.active && job.clock == Wall && job.callback.None?
  }

  function ScopeName(scope: Scope): string {
    if scope == User then "user" else "managed"
  }

  function ParseScope(name: string): Option<Scope> {
    if name == "user" then Some(User) else if name == "managed" then Some(Managed) else None
  }

  function Record(job: Job): Stored {
    Stored(job.id, ScopeName(job.scope), job.tag, job.command, job.due, job.interval)
  }

  /** The records of the persisted jobs in slot order, leaving out one scope when asked. */
  function Records(jobs: seq<Job>, omit: Option<Scope>): seq<Stored> {
    if jobs == [] then []
    else (if Persists(jobs[0]) && omit != Some(jobs[0].scope) then [Record(jobs[0])] else []) + Records(jobs[1..], omit)
  }

  // ----- saving

  function Left(file: JobsFile, left: Remains, records: seq<Stored>): JobsFile {
    match left case OldFile => file case NoFile => Absent case TornFile => Garbled case NewFile => Holds(records)
  }

  function WriteJobs(t: Table, omit: Option<Scope>): (Table, bool) {
    if !t.on || !t.ready then (t, false)
    else
      var outcome := if t.writes == [] then Written else t.writes[0];
      var rest := t.(writes := if t.writes == [] then [] else t.writes[1..]);
      match outcome
      case Written => (rest.(file := Holds(Records(t.jobs, omit))), true)
      case Failed(left) => (rest.(file := Left(t.file, left, Records(t.jobs, omit))), false)
      case CutShort(left) => (rest.(file := Left(t.file, left, Records(t.jobs, omit)), on := false), false)
      case CutAfter => (rest.(file := Holds(Records(t.jobs, omit)), on := false), false)
  }

  // ----- adding

  predicate TakenLabel(jobs: seq<Job>, scope: Scope, tag: string) {
    exists k :: 0 <= k < |jobs| && jobs[k].active && jobs[k].scope == scope && jobs[k].tag == tag
  }

  predicate WellFormedRequest(r: Request) {
    && (r.command != "") != r.callback.Some?
    && 0 < |r.tag| <= MAX_LABEL_LENGTH && |r.command| <= MAX_COMMAND_LENGTH
  }

  predicate MustPersist(r: Request) {
    r.clock == Wall && r.command != ""
  }

  /** The first slot not in use, or |jobs|. Adding answers with the new id, or with nothing where the source says -1. */
  function FirstFree(jobs: seq<Job>): (i: nat)
    ensures i <= |jobs|
    ensures forall k :: 0 <= k < i ==> jobs[k].active
    ensures i < |jobs| ==> !jobs[i].active
  {
    if jobs == [] || !jobs[0].active then 0 else 1 + FirstFree(jobs[1..])
  }

  predicate Admits(t: Table, r: Request) {
    && WellFormedRequest(r) && (MustPersist(r) ==> t.ready)
    && 0 < t.nextId <= INT32_MAX && !TakenLabel(t.jobs, r.scope, r.tag) && FirstFree(t.jobs) < |t.jobs|
  }

  function Added(t: Table, r: Request): (Table, Option<uint32>)
    requires |t.jobs| == MAX_JOBS
  {
    if !Admits(t, r) then (t, None)
    else
      var i := FirstFree(t.jobs);
      var job := Job(true, t.nextId, r.scope, r.tag, r.command, r.clock, r.due, r.interval, r.callback);
      var placed := t.(jobs := t.jobs[i := job], nextId := t.nextId + 1);
      if !MustPersist(r) then (placed, Some(t.nextId))
      else
        var (after, ok) := WriteJobs(placed, None);
        if ok then (after, Some(t.nextId)) else (after.(jobs := t.jobs[i := BLANK], nextId := t.nextId), None)
  }

  // ----- removing

  function RemovedAt(t: Table, i: nat): (Table, bool)
    requires i < |t.jobs|
  {
    var blanked := t.(jobs := t.jobs[i := BLANK]);
    if !Persists(t.jobs[i]) then (blanked, true)
    else
      var (after, ok) := WriteJobs(blanked, None);
      if ok then (after, true) else (after.(jobs := t.jobs), false)
  }

  /** How a caller names a job: by its label or by its id, always within a scope. */
  datatype Selector = ByLabel(tag: string) | ById(id: uint32)

  predicate Selects(job: Job, scope: Scope, s: Selector) {
    job.active && job.scope == scope && (match s case ByLabel(tag) => job.tag == tag case ById(id) => job.id == id)
  }

  /** The first slot holding the selected job, or |jobs|. */
  function Selected(jobs: seq<Job>, scope: Scope, s: Selector): (i: nat)
    ensures i <= |jobs|
    ensures forall k :: 0 <= k < i ==> !Selects(jobs[k], scope, s)
    ensures i < |jobs| ==> Selects(jobs[i], scope, s)
  {
    if jobs == [] || Selects(jobs[0], scope, s) then 0 else 1 + Selected(jobs[1..], scope, s)
  }

  function Removed(t: Table, scope: Scope, s: Selector): (Table, bool) {
    var i := Selected(t.jobs, scope, s);
    if i < |t.jobs| then RemovedAt(t, i) else (t, false)
  }

  /** Every slot of one scope blanked. */
  function Without(jobs: seq<Job>, scope: Scope): seq<Job> {
    seq(|jobs|, k requires 0 <= k < |jobs| => if jobs[k].active && jobs[k].scope == scope then BLANK else jobs[k])
  }

  predicate PersistedInScope(jobs: seq<Job>, scope: Scope) {
    exists k :: 0 <= k < |jobs| && Persists(jobs[k]) && jobs[k].scope == scope
  }

  /** The file is rewritten without the scope first; memory follows only if that worked. */
  function ClearedScope(t: Table, scope: Scope): (Table, bool) {
    if !PersistedInScope(t.jobs, scope) then (t.(jobs := Without(t.jobs, scope)), true)
    else
      var (after, ok) := WriteJobs(t, Some(scope));
      if ok then (after.(jobs := Without(t.jobs, scope)), true) else (after, false)
  }

  // ----- loading

  predicate Readable(r: Stored) {
    && ParseScope(r.scope).Some?
    && 0 < |r.tag| <= MAX_LABEL_LENGTH && 0 < |r.command| <= MAX_COMMAND_LENGTH
    && (r.due != 0 || r.interval != 0)
  }

  predicate TakenId(jobs: seq<Job>, id: uint32) {
    exists k :: 0 <= k < |jobs| && jobs[k].active && jobs[k].id == id
  }

  /** The id a loaded record gets: its own, unless that is unusable or taken. */
  function IdFor(t: Table, r: Stored): uint32 {
    if r.id == 0 || r.id > INT32_MAX || TakenId(t.jobs, r.id) then t.nextId else r.id
  }

  function LoadedRecord(t: Table, r: Stored): (after: Table)
    ensures |after.jobs| == |t.jobs| && after == t.(jobs := after.jobs, nextId := after.nextId)
  {
    var id := IdFor(t, r);
    if !Readable(r) || TakenLabel(t.jobs, ParseScope(r.scope).value, r.tag) || id == 0 || id > INT32_MAX
       || FirstFree(t.jobs) == |t.jobs| then t
    else
      var job := Job(true, id, ParseScope(r.scope).value, r.tag, r.command, Wall, r.due, r.interval, None);
      t.(jobs := t.jobs[FirstFree(t.jobs) := job], nextId := if t.nextId <= id then id + 1 else t.nextId)
  }

  function LoadedRecords(t: Table, records: seq<Stored>): (after: Table)
    ensures |after.jobs| == |t.jobs| && after == t.(jobs := after.jobs, nextId := after.nextId)
    decreases |records|
  {
    if records == [] then t else LoadedRecords(LoadedRecord(t, records[0]), records[1..])
  }

  function Loaded(t: Table): Table {
    if t.file.Holds? then LoadedRecords(t, t.file.records) else t
  }

  /** Storage comes up, at once or late: the file, if it can be read, is loaded into whatever table there is. */
  function Mounted(t: Table, read: bool): Table {
    if t.ready || !t.on then t else if read then Loaded(t.(ready := true)) else t.(ready := true)
  }

  // ----- firing

  /** The two clocks as a tick reads them; no wall time before the clock is set. */
  datatype Now = Now(monotonic: uint32, wall: Option<uint32>)

  function Plus(a: uint32, b: uint32): uint32 {
    (a + b) % CLOCK_MODULUS
  }

  /** static_cast<int32_t>(now - due) < 0, the subtraction wrapping. */
  predicate Before(now: uint32, due: uint32) {
    (now - due) % CLOCK_MODULUS >= CLOCK_MODULUS / 2
  }

  predicate Waits(job: Job, now: Now) {
    match job.clock
    case Wall => now.wall.None? || (job.due == 0 && job.interval != 0) || now.wall.value < job.due
    case Monotonic => Before(now.monotonic, job.due)
  }

  /** The slot once its job is due: empty for a one-shot, its next deadline for a recurring one. */
  function Advanced(job: Job, now: Now): Job {
    if job.interval == 0 then BLANK
    else if job.clock == Wall then job.(due := Plus(if now.wall.Some? then now.wall.value else 0, job.interval))
    else job.(due := Plus(now.monotonic, job.interval))
  }

  /** One turn of the tick loop, up to the unlocking: the table, and the job to run, if any. */
  function Fired(t: Table, i: nat, now: Now, last: uint32): (r: (Table, Option<Job>))
    requires i < |t.jobs|
    ensures |r.0.jobs| == |t.jobs|
  {
    var job := t.jobs[i];
    if !job.active || job.id > last then (t, None)
    else if Waits(job, now) then
      if job.clock == Wall && now.wall.Some? && job.due == 0 && job.interval != 0
      then (t.(jobs := t.jobs[i := job.(due := Plus(now.wall.value, job.interval))]), None)
      else (t, None)
    else
      var advanced := t.(jobs := t.jobs[i := Advanced(job, now)]);
      if !(Persists(job) && job.interval == 0) then (advanced, Some(job))
      else
        var (after, ok) := WriteJobs(advanced, None);
        if ok then (after, Some(job)) else (after.(jobs := t.jobs), None)
  }

  /** What a callback, a command or another task may do to the table while a tick has it unlocked. */
  datatype Op =
    | Add(request: Request)
    | Remove(scope: Scope, selector: Selector)
    | Clear(scope: Scope)
    | Mount(read: bool)
    | Reenter
    | LosePower

  /** A tick inside a tick returns at once. */
  function Applied(t: Table, op: Op): (after: Table)
    requires |t.jobs| == MAX_JOBS
    ensures |after.jobs| == MAX_JOBS
  {
    match op
    case Add(r) => Added(t, r).0
    case Remove(scope, s) => Removed(t, scope, s).0
    case Clear(scope) => ClearedScope(t, scope).0
    case Mount(read) => Mounted(t, read)
    case Reenter => t
    case LosePower => t.(on := false)
  }

  function AppliedAll(t: Table, ops: seq<Op>): (after: Table)
    requires |t.jobs| == MAX_JOBS
    ensures |after.jobs| == MAX_JOBS
    decreases |ops|
  {
    if ops == [] then t else AppliedAll(Applied(t, ops[0]), ops[1..])
  }

  /**
   * The rest of a tick from slot i on: the table it leaves and the jobs it ran, in order. `plan` says what happens
   * to the table during each run.
   */
  function Ticked(t: Table, i: nat, now: Now, last: uint32, plan: seq<seq<Op>>): (r: (Table, seq<Job>))
    requires |t.jobs| == MAX_JOBS && i <= MAX_JOBS
    ensures |r.0.jobs| == MAX_JOBS
    decreases |t.jobs| - i
  {
    if i == MAX_JOBS || !t.on then (t, [])
    else
      var (fired, run) := Fired(t, i, now, last);
      if run.None? then Ticked(fired, i + 1, now, last, plan)
      else
        var during := if plan == [] then [] else plan[0];
        var (after, more) := Ticked(AppliedAll(fired, during), i + 1, now, last, if plan == [] then [] else plan[1..]);
        (after, [run.value] + more)
  }

  /** The newest id when a tick begins: younger jobs wait for the next one. */
  function LastId(t: Table): uint32 {
    (t.nextId - 1) % CLOCK_MODULUS
  }

  /** Before its slots are looked at, a tick may find that storage has come up. */
  function Retried(t: Table, retry: Option<bool>): Table {
    if retry.Some? then Mounted(t, retry.value) else t
  }

  function WholeTick(t: Table, retry: Option<bool>, now: Now, plan: seq<seq<Op>>): (r: (Table, seq<Job>))
    requires |t.jobs| == MAX_JOBS
    ensures |r.0.jobs| == MAX_JOBS
  {
    var ready := Retried(t, retry);
    Ticked(ready, 0, now, LastId(ready), plan)
  }

  // ----- the forms that compute a deadline

  const MAX_INTERVAL := 0x7FFF_FFFF

  /** How a caller asks for a job; each form computes one deadline, or refuses. */
  datatype Form = AtWall(epoch: uint32) | After(delayMs: uint32) | EveryWall(seconds: uint32) | EveryMonotonic(ms: uint32)

  /** Clock, deadline and interval of a form; none where the source answers -1. */
  function Deadline(form: Form, now: Now): Option<(Clock, uint32, uint32)> {
    match form
    case AtWall(epoch) => if epoch == 0 then None else Some((Wall, epoch, 0))
    case After(delay) => if delay > MAX_INTERVAL then None else Some((Monotonic, Plus(now.monotonic, delay), 0))
    case EveryWall(seconds) =>
      if seconds == 0 || seconds > MAX_INTERVAL then None
      else Some((Wall, if now.wall.Some? then Plus(now.wall.value, seconds) else 0, seconds))
    case EveryMonotonic(ms) =>
      if ms == 0 || ms > MAX_INTERVAL then None else Some((Monotonic, Plus(now.monotonic, ms), ms))
  }

  /** One target: a command and its scope, or a callback, which is always managed. */
  datatype Target = Command(text: string, scope: Scope) | Callback(id: nat)

  function RequestFor(tag: string, target: Target, deadline: (Clock, uint32, uint32)): Request {
    match target
    case Command(text, scope) => Request(scope, tag, text, deadline.0, deadline.1, deadline.2, None)
    case Callback(id) => Request(Managed, tag, "", deadline.0, deadline.1, deadline.2, Some(id))
  }

  function Scheduled(t: Table, tag: string, target: Target, form: Form, now: Now): (Table, Option<uint32>)
    requires |t.jobs| == MAX_JOBS
  {
    var deadline := Deadline(form, now);
    if deadline.None? then (t, None) else Added(t, RequestFor(tag, target, deadline.value))
  }
}
