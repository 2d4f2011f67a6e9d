/** Adopting a new device name: a two-write migration that a crash or a failed write must not forget. */
module Identity {
  import opened Common
  import opened Settings
  import Flash = Storage

  const DEVICE_NAME := "_device_name"
  const DEVICE_TIMEZONE := "_timezone"
  const PENDING_CLEANUP := "_pending_identity_cleanup"

  /** One participant's share of a cleanup; its bit in the flags is 1 or 2. */
  datatype Cleanup = Resources | Status

  const ALL_FLAGS: uint8 := 3

  predicate Pending(flags: uint8, c: Cleanup) {
    match c case Resources => flags % 2 == 1 case Status => flags / 2 % 2 == 1
  }

  function Cleared(flags: uint8, c: Cleanup): (r: uint8)
    ensures !Pending(r, c)
    ensures forall other: Cleanup :: other != c ==> (Pending(r, other) <==> Pending(flags, other))
    ensures flags <= ALL_FLAGS ==> r <= ALL_FLAGS
  {
    if !Pending(flags, c) then flags else flags - (match c case Resources => 1 case Status => 2)
  }

  predicate ValidTimezone(tz: string) {
    && 0 < |tz| <= 128
    && forall i :: 0 <= i < |tz| ==> tz[i] as int >= 0x20 && tz[i] as int != 0x7F
  }

  // ----- the cleanup record "<oldName>/<flags>"

  function Record(oldName: string, flags: uint8): string {
    oldName + "/" + Decimal(flags)
  }

  /** The position of the last '/' of s, or -1. */
  function LastSlash(s: string): (i: int)
    ensures -1 <= i < |s|
    ensures i >= 0 ==> s[i] == '/'
    ensures forall k :: i < k < |s| ==> s[k] != '/'
  {
    if s == "" then -1 else if s[|s| - 1] == '/' then |s| - 1 else LastSlash(s[..|s| - 1])
  }

  predicate IsSpace(c: char) {
    c == ' ' || 9 <= c as int <= 13
  }

  function Digits(s: string, acc: nat): nat
    decreases |s|
  {
    if s == "" || !('0' <= s[0] <= '9') then acc else Digits(s[1..], acc * 10 + (s[0] as int - '0' as int))
  }

  /** strtol in base 10, without its saturation: blanks, a sign, then digits as far as they go. */
  function ToLong(s: string): (n: int)
    decreases |s|
  {
    if s == "" then 0
    else if IsSpace(s[0]) then ToLong(s[1..])
    else if s[0] == '-' then 0 - Digits(s[1..], 0)
    else if s[0] == '+' then Digits(s[1..], 0)
    else Digits(s, 0)
  }

  datatype Owed = Owed(oldName: string, flags: uint8)

  /** What a stored record asks of a device now called `name`; nothing if it is malformed or names this device. */
  function ParseRecord(record: string, name: string): Option<Owed> {
    var slash := LastSlash(record);
    if slash <= 0 then None
    else
      var oldName := record[..slash];
      var flags := ToLong(record[slash + 1..]);
      if ValidName(oldName) && oldName != name && 0 < flags <= ALL_FLAGS then Some(Owed(oldName, flags)) else None
  }

  /** Printing a record and parsing it again loses nothing; only a record of this very device is discarded. */
  lemma {:induction false} RecordRoundTrip(oldName: string, flags: uint8, name: string)
    requires ValidName(oldName) && 0 < flags <= ALL_FLAGS
    ensures ParseRecord(Record(oldName, flags), name) == if oldName == name then None else Some(Owed(oldName, flags))
  {
    var r := Record(oldName, flags);
    var digit := ('0' as int + flags) as char;
    var slash := LastSlash(r);
    assert r[|oldName|] == '/' && r[|oldName| + 1] == digit;
    assert slash == |oldName|;
    assert r[..slash] == oldName && r[slash + 1..] == [digit];
    assert Decimal(flags) == [digit];
    assert Digits([digit], 0) == Digits([digit][1..], flags) == flags;
  }

  // ----- the device as a value

  /** The settings, and what `DeviceIdentity` keeps in memory beside them. */
  datatype Device = Device(store: Store, name: string, oldName: string, flags: uint8, locked: bool)

  function WithStore(d: Device, result: (Store, bool)): (Device, bool) {
    (d.(store := result.0), result.1)
  }

  function Persisted(d: Device, outcome: SaveOutcome): (Device, bool) {
    if d.flags == 0 then
      if Has(d.store.ram, PENDING_CLEANUP) then WithStore(d, WithoutKey(d.store, PENDING_CLEANUP, outcome))
      else (d, true)
    else WithStore(d, WithKey(d.store, PENDING_CLEANUP, Record(d.oldName, d.flags), outcome))
  }

  /** An adoption's first write: the running name recorded, every cleanup pending. */
  function Recorded(d: Device, record: SaveOutcome): (Device, bool) {
    Persisted(d.(oldName := d.name, flags := ALL_FLAGS), record)
  }

  /** Its second write: the new name. */
  function Renamed(d: Device, newName: string, rename: SaveOutcome): (Device, bool) {
    WithStore(d, WithKey(d.store, DEVICE_NAME, newName, rename))
  }

  /** The record first, then the name; a failure of either leaves the device as it was called. */
  function Adopted(d: Device, newName: string, record: SaveOutcome, rename: SaveOutcome, undo: SaveOutcome): (Device, bool) {
    if !ValidName(newName) || d.flags != 0 then (d, false)
    else if newName == d.name then (d, true)
    else
      var (d1, recorded) := Recorded(d, record);
      if !recorded then (d1.(oldName := "", flags := 0), false)
      else
        var (d2, renamed) := Renamed(d1, newName, rename);
        if !renamed then (Persisted(d2.(oldName := "", flags := 0), undo).0, false)
        else (if d2.locked then d2 else d2.(name := newName), true)
  }

  /** The cleanup to run now: none while this boot still runs under the old name. */
  function Actionable(d: Device): Option<Owed> {
    if d.flags == 0 || d.oldName == d.name then None else Some(Owed(d.oldName, d.flags))
  }

  /** One participant's bit cleared in memory and on flash, or in neither. */
  function Completed(d: Device, c: Cleanup, outcome: SaveOutcome): (Device, bool) {
    if !Pending(d.flags, c) then (d, true)
    else
      var flags := Cleared(d.flags, c);
      var (after, ok) := Persisted(d.(flags := flags, oldName := if flags == 0 then "" else d.oldName), outcome);
      if ok then (after, true) else (after.(flags := d.flags, oldName := d.oldName), false)
  }

  /** The record in memory settings taken up, or discarded as one this device must not act on. */
  function PendingLoaded(d: Device, outcome: SaveOutcome): Device {
    if !Has(d.store.ram, PENDING_CLEANUP) then d
    else
      match ParseRecord(Get(d.store.ram, PENDING_CLEANUP, ""), d.name)
      case Some(owed) => d.(oldName := owed.oldName, flags := owed.flags)
      case None => WithStore(d, WithoutKey(d.store, PENDING_CLEANUP, outcome)).0
  }

  /** How the saves of one boot end. */
  datatype BootOutcome = BootOutcome(load: LoadOutcome, name: SaveOutcome, timezone: SaveOutcome, record: SaveOutcome)

  /** A stored value made present and valid: the default is saved in place of a missing or refused one. */
  function Settled(s: Store, key: string, stored: string, used: string, outcome: SaveOutcome): Store {
    if !Has(s.ram, key) || stored != used then WithKey(s, key, used, outcome).0 else s
  }

  function UsedName(s: Store, default: string): string {
    var stored := Get(s.ram, DEVICE_NAME, default);
    if ValidName(stored) then stored else default
  }

  function UsedTimezone(s: Store, default: string): string {
    var stored := Get(s.ram, DEVICE_TIMEZONE, default);
    if ValidTimezone(stored) then stored else default
  }

  function NameSettled(s: Store, default: string, save: SaveOutcome): Store {
    Settled(s, DEVICE_NAME, Get(s.ram, DEVICE_NAME, default), UsedName(s, default), save)
  }

  function TimezoneSettled(s: Store, default: string, save: SaveOutcome): Store {
    Settled(s, DEVICE_TIMEZONE, Get(s.ram, DEVICE_TIMEZONE, default), UsedTimezone(s, default), save)
  }

  /** Power on: the settings are loaded, the name and timezone settled, and a pending cleanup taken up. */
  function Booted(disk: Document, defaultName: string, defaultTimezone: string, o: BootOutcome): Device {
    var s := LoadedStore(Store(disk, [], true), o.load);
    var settled := TimezoneSettled(NameSettled(s, defaultName, o.name), defaultTimezone, o.timezone);
    PendingLoaded(Device(settled, UsedName(s, defaultName), "", 0, false), o.record)
  }

  // ----- whole runs

  /** What can happen to a device, in any order. Other settings may be set and removed at any time. */
  datatype Event =
    | Boot(outcome: BootOutcome)
    | Adopt(newName: string, record: SaveOutcome, rename: SaveOutcome, undo: SaveOutcome)
    | Complete(cleanup: Cleanup, save: SaveOutcome)
    | SetOther(key: string, value: string, save: SaveOutcome)
    | RemoveOther(key: string, save: SaveOutcome)
    | LockAddress
    | LosePower

  /** A device through its life, with the cleanups it still owes: per old name, per participant. */
  datatype Life = Life(device: Device, owed: set<(string, Cleanup)>)

  predicate Reaches(save: SaveOutcome) {
    save == Landed || save == LostAfter
  }

  /** The adoption's second write is on flash, whether or not the device lived to hear so. */
  predicate TookEffect(d: Device, e: Event)
    requires e.Adopt?
  {
    && d.store.on && d.flags == 0 && ValidName(e.newName) && e.newName != d.name
    && Recorded(d, e.record).1
    && CanPut(Recorded(d, e.record).0.store.ram, DEVICE_NAME) && Reaches(e.rename)
  }

  predicate FrameworkKey(key: string) {
    key == DEVICE_NAME || key == PENDING_CLEANUP
  }

  /**
   * One event. An adoption that took effect owes both cleanups of the name the device ran under;
   * a cleanup reported done is owed no longer, whatever its write does.
   */
  function Next(l: Life, e: Event, defaultName: string, defaultTimezone: string): Life {
    var d := l.device;
    match e
    case Boot(o) => l.(device := Booted(d.store.disk, defaultName, defaultTimezone, o))
    case Adopt(newName, record, rename, undo) =>
      Life(Adopted(d, newName, record, rename, undo).0,
           if TookEffect(d, e) then l.owed + {(d.name, Resources), (d.name, Status)} else l.owed)
    case Complete(c, save) =>
      Life(Completed(d, c, save).0, if d.store.on && Pending(d.flags, c) then l.owed - {(d.oldName, c)} else l.owed)
    case SetOther(key, value, save) =>
      if FrameworkKey(key) then l else l.(device := WithStore(d, WithKey(d.store, key, value, save)).0)
    case RemoveOther(key, save) =>
      if FrameworkKey(key) then l else l.(device := WithStore(d, WithoutKey(d.store, key, save)).0)
    case LockAddress => l.(device := d.(locked := true))
    case LosePower => l.(device := d.(store := d.store.(on := false)))
  }

  /** Some save of this boot replaces the file with one that never held the record. */
  predicate Overwrites(o: BootOutcome) {
    var settles := Reaches(o.name) || (o.name == Refused && Reaches(o.timezone));
    match o.load
    case Loaded => false
    case LostLoading => false
    case Unread => settles
    case Unfound(save) => Reaches(save) || (save == Refused && settles)
  }

  /** This boot has no record in memory: it never read the file, or there is none. */
  predicate Blind(d: Device) {
    d.flags == 0 && !Has(d.store.ram, PENDING_CLEANUP)
  }

  /** No save of this event reaches the flash. */
  predicate Silent(e: Event) {
    match e
    case Adopt(_, record, _, _) => !Reaches(record)
    case SetOther(_, _, save) => !Reaches(save)
    case RemoveOther(_, save) => !Reaches(save)
    case _ => true
  }

  /** While something is owed, nothing is saved from a table that never held the record. */
  predicate Careful(l: Life, e: Event) {
    l.owed != {} ==>
      (if e.Boot? then !Overwrites(e.outcome) else l.device.store.on && Blind(l.device) ==> Silent(e))
  }

  /** These settings record an old name with some flags, under a valid name that is not the old one. */
  predicate Carries(es: seq<Entry>, oldName: string, flags: uint8) {
    && WellKept(es) && Has(es, DEVICE_NAME) && Has(es, PENDING_CLEANUP)
    && ValidName(Get(es, DEVICE_NAME, ""))
    && ParseRecord(Get(es, PENDING_CLEANUP, ""), Get(es, DEVICE_NAME, "")) == Some(Owed(oldName, flags))
  }

  /** The settings file records cleanup `c` of `oldName`, and the next boot will run under another name. */
  ghost predicate OnFlash(disk: Document, oldName: string, c: Cleanup) {
    && disk.Some? && disk.value.Whole?
    && exists flags: uint8 :: Carries(disk.value.doc, oldName, flags) && Pending(flags, c)
  }

  /** While something is owed, the table in memory and the file both carry the record the device works from. */
  predicate Agrees(d: Device) {
    && d.store.disk.Some? && d.store.disk.value.Whole?
    && Carries(d.store.disk.value.doc, d.oldName, d.flags)
    && Carries(d.store.ram, d.oldName, d.flags)
  }

  ghost predicate Kept(disk: Document, owed: set<(string, Cleanup)>) {
    forall n, c :: (n, c) in owed ==> OnFlash(disk, n, c)
  }

  /** Everything owed is a pending bit of the record the device works from. */
  predicate OwesOnlyPending(d: Device, owed: set<(string, Cleanup)>) {
    forall o :: o in owed ==> o.0 == d.oldName && Pending(d.flags, o.1)
  }

  /** What the table owes nothing to: its bounds, and the shape of the identity fields. */
  ghost predicate Sane(d: Device) {
    && WellKept(d.store.ram) && d.flags <= ALL_FLAGS && ValidName(d.name)
    && (d.flags != 0 ==> ValidName(d.oldName))
  }

  ghost predicate Sound(l: Life) {
    var d := l.device;
    && Kept(d.store.disk, l.owed) && Sane(d)
    && (d.store.on && l.owed != {} ==> Blind(d) || (OwesOnlyPending(d, l.owed) && Agrees(d)))
  }

  lemma {:induction false} CarriedIsKept(doc: seq<Entry>, d: Device, owed: set<(string, Cleanup)>)
    requires OwesOnlyPending(d, owed) && Carries(doc, d.oldName, d.flags)
    ensures Kept(Some(Flash.Whole(doc)), owed)
  {
  }

  /** Other keys do not disturb a record. */
  lemma {:induction false} CarriesAfterPut(es: seq<Entry>, key: string, value: string, oldName: string, flags: uint8)
    requires Carries(es, oldName, flags) && !FrameworkKey(key) && CanPut(es, key)
    ensures Carries(Put(es, key, value), oldName, flags)
  {
    GetAfterPut(es, key, value, DEVICE_NAME, "");
    GetAfterPut(es, key, value, PENDING_CLEANUP, "");
  }

  lemma {:induction false} CarriesAfterDrop(es: seq<Entry>, key: string, oldName: string, flags: uint8)
    requires Carries(es, oldName, flags) && !FrameworkKey(key)
    ensures Carries(Drop(es, key), oldName, flags)
  {
    GetAfterDrop(es, key, DEVICE_NAME, "");
    GetAfterDrop(es, key, PENDING_CLEANUP, "");
  }

  lemma {:induction false} WithKeyKeepsTable(s: Store, key: string, value: string, save: SaveOutcome)
    requires WellKept(s.ram)
    ensures WellKept(WithKey(s, key, value, save).0.ram)
    ensures !s.on ==> WithKey(s, key, value, save).0 == s
  {
    if CanPut(s.ram, key) { GetAfterPut(s.ram, key, value, key, ""); }
  }

  lemma {:induction false} WithoutKeyKeepsTable(s: Store, key: string, save: SaveOutcome)
    requires WellKept(s.ram)
    ensures WellKept(WithoutKey(s, key, save).0.ram)
    ensures !s.on ==> WithoutKey(s, key, save).0.disk == s.disk && !WithoutKey(s, key, save).0.on
  {
    DropKeeps(s.ram, key);
  }

  lemma {:induction false} PersistedKeepsTable(d: Device, save: SaveOutcome)
    requires WellKept(d.store.ram)
    ensures var after := Persisted(d, save).0;
            && WellKept(after.store.ram) && after == d.(store := after.store)
            && (!d.store.on ==> after.store.disk == d.store.disk && !after.store.on)
  {
    WithKeyKeepsTable(d.store, PENDING_CLEANUP, Record(d.oldName, d.flags), save);
    WithoutKeyKeepsTable(d.store, PENDING_CLEANUP, save);
  }

  lemma {:induction false} SetOtherKeepsSound(l: Life, key: string, value: string, save: SaveOutcome, name: string, tz: string)
    requires Sound(l) && Careful(l, SetOther(key, value, save))
    ensures Sound(Next(l, SetOther(key, value, save), name, tz))
  {
    var d := l.device;
    if !FrameworkKey(key) {
      WithKeyKeepsTable(d.store, key, value, save);
      if CanPut(d.store.ram, key) && d.store.on && l.owed != {} && !Blind(d) {
        CarriesAfterPut(d.store.ram, key, value, d.oldName, d.flags);
        CarriedIsKept(Put(d.store.ram, key, value), d, l.owed);
      }
    }
  }

  lemma {:induction false} RemoveOtherKeepsSound(l: Life, key: string, save: SaveOutcome, name: string, tz: string)
    requires Sound(l) && Careful(l, RemoveOther(key, save))
    ensures Sound(Next(l, RemoveOther(key, save), name, tz))
  {
    var d := l.device;
    if !FrameworkKey(key) {
      WithoutKeyKeepsTable(d.store, key, save);
      if Blind(d) {
        GetAfterDrop(d.store.ram, key, PENDING_CLEANUP, "");
      } else if d.store.on && l.owed != {} {
        CarriesAfterDrop(d.store.ram, key, d.oldName, d.flags);
        CarriedIsKept(Drop(d.store.ram, key), d, l.owed);
      }
    }
  }

  /** A record of fewer flags written over one of more. */
  lemma {:induction false} CarriesRewritten(es: seq<Entry>, oldName: string, flags: uint8, fewer: uint8)
    requires Carries(es, oldName, flags) && 0 < fewer <= ALL_FLAGS
    ensures CanPut(es, PENDING_CLEANUP)
    ensures Carries(Put(es, PENDING_CLEANUP, Record(oldName, fewer)), oldName, fewer)
  {
    GetAfterPut(es, PENDING_CLEANUP, Record(oldName, fewer), DEVICE_NAME, "");
    GetAfterPut(es, PENDING_CLEANUP, Record(oldName, fewer), PENDING_CLEANUP, "");
    RecordRoundTrip(oldName, fewer, Get(es, DEVICE_NAME, ""));
  }

  lemma {:induction false} CompletedIsSane(d: Device, c: Cleanup, save: SaveOutcome)
    requires Sane(d)
    ensures var after := Completed(d, c, save).0;
            && Sane(after) && (!d.store.on ==> after.store.disk == d.store.disk && !after.store.on)
  {
    if Pending(d.flags, c) {
      var fewer := Cleared(d.flags, c);
      var asked := d.(flags := fewer, oldName := if fewer == 0 then "" else d.oldName);
      assert Sane(asked);
      PersistedKeepsTable(asked, save);
      var (after, ok) := Persisted(asked, save);
      assert Completed(d, c, save).0 == if ok then after else after.(flags := d.flags, oldName := d.oldName);
    }
  }

  /** A bit cleared while others are pending: the rest stay recorded, whatever the write does. */
  lemma {:induction false} CompleteOneOfTwo(d: Device, owed: set<(string, Cleanup)>, c: Cleanup, save: SaveOutcome)
    requires Sane(d) && d.store.on && Pending(d.flags, c) && Cleared(d.flags, c) != 0
    requires OwesOnlyPending(d, owed) && Agrees(d)
    ensures var after, rest := Completed(d, c, save).0, owed - {(d.oldName, c)};
            && Kept(after.store.disk, rest)
            && (after.store.on ==> OwesOnlyPending(after, rest) && Agrees(after))
  {
    var fewer := Cleared(d.flags, c);
    var asked, rest := d.(flags := fewer), owed - {(d.oldName, c)};
    assert OwesOnlyPending(asked, rest);
    CarriesRewritten(d.store.ram, d.oldName, d.flags, fewer);
    CarriedIsKept(Put(d.store.ram, PENDING_CLEANUP, Record(d.oldName, fewer)), asked, rest);
    CarriedIsKept(d.store.disk.value.doc, d, rest);
  }

  lemma {:induction false} CompleteKeepsSound(l: Life, c: Cleanup, save: SaveOutcome, name: string, tz: string)
    requires Sound(l)
    ensures Sound(Next(l, Complete(c, save), name, tz))
  {
    var d := l.device;
    CompletedIsSane(d, c, save);
    if Pending(d.flags, c) && d.store.on && l.owed != {} {
      assert !Blind(d);
      if Cleared(d.flags, c) == 0 {
        assert forall other :: other != c ==> !Pending(d.flags, other);
        assert l.owed - {(d.oldName, c)} == {};
      } else {
        CompleteOneOfTwo(d, l.owed, c, save);
      }
    }
  }

  /** The two writes of an adoption, when both reach the flash. */
  lemma {:induction false} AdoptionRecorded(ram: seq<Entry>, oldName: string, newName: string)
    requires WellKept(ram) && ValidName(oldName) && ValidName(newName) && oldName != newName
    requires CanPut(ram, PENDING_CLEANUP)
    requires CanPut(Put(ram, PENDING_CLEANUP, Record(oldName, ALL_FLAGS)), DEVICE_NAME)
    ensures Carries(Put(Put(ram, PENDING_CLEANUP, Record(oldName, ALL_FLAGS)), DEVICE_NAME, newName), oldName, ALL_FLAGS)
  {
    var record := Record(oldName, ALL_FLAGS);
    var first := Put(ram, PENDING_CLEANUP, record);
    GetAfterPut(ram, PENDING_CLEANUP, record, PENDING_CLEANUP, "");
    GetAfterPut(first, DEVICE_NAME, newName, PENDING_CLEANUP, "");
    GetAfterPut(first, DEVICE_NAME, newName, DEVICE_NAME, "");
    RecordRoundTrip(oldName, ALL_FLAGS, newName);
  }

  lemma {:induction false} RecordedIsSane(d: Device, save: SaveOutcome)
    requires Sane(d)
    ensures var after := Recorded(d, save).0;
            && Sane(after) && after == d.(store := after.store, oldName := d.name, flags := ALL_FLAGS)
            && (!d.store.on ==> after.store.disk == d.store.disk && !after.store.on)
  {
    PersistedKeepsTable(d.(oldName := d.name, flags := ALL_FLAGS), save);
  }

  lemma {:induction false} RenamedIsSane(d: Device, newName: string, save: SaveOutcome)
    requires Sane(d)
    ensures var after := Renamed(d, newName, save).0;
            && Sane(after) && after == d.(store := after.store)
            && (!d.store.on ==> after.store == d.store)
  {
    WithKeyKeepsTable(d.store, DEVICE_NAME, newName, save);
  }

  lemma {:induction false} AdoptedIsSane(d: Device, newName: string, record: SaveOutcome, rename: SaveOutcome, undo: SaveOutcome)
    requires Sane(d)
    ensures var after := Adopted(d, newName, record, rename, undo).0;
            && Sane(after) && (!d.store.on ==> after.store.disk == d.store.disk && !after.store.on)
  {
    if ValidName(newName) && d.flags == 0 && newName != d.name {
      RecordedIsSane(d, record);
      var (d1, recorded) := Recorded(d, record);
      if recorded {
        RenamedIsSane(d1, newName, rename);
        var (d2, renamed) := Renamed(d1, newName, rename);
        if !renamed {
          PersistedKeepsTable(d2.(oldName := "", flags := 0), undo);
        }
      }
    }
  }

  /** An adoption whose name write reached the flash leaves the old name recorded there, both cleanups pending. */
  lemma {:induction false} AdoptionOwesBoth(d: Device, newName: string, record: SaveOutcome, rename: SaveOutcome,
                                            undo: SaveOutcome)
    requires Sane(d) && TookEffect(d, Adopt(newName, record, rename, undo))
    ensures var after, owed := Adopted(d, newName, record, rename, undo).0, {(d.name, Resources), (d.name, Status)};
            && Kept(after.store.disk, owed)
            && (after.store.on ==> OwesOnlyPending(after, owed) && Agrees(after))
  {
    var asked := d.(oldName := d.name, flags := ALL_FLAGS);
    AdoptionRecorded(d.store.ram, d.name, newName);
    var first := Put(d.store.ram, PENDING_CLEANUP, Record(d.name, ALL_FLAGS));
    assert Recorded(d, record).0.store == d.store.(disk := Some(Flash.Whole(first)), ram := first);
    var owed := {(d.name, Resources), (d.name, Status)};
    assert OwesOnlyPending(asked, owed);
    CarriedIsKept(Put(first, DEVICE_NAME, newName), asked, owed);
    if rename == LostAfter {
      LostRenameKeepsDisk(d, newName, record, undo);
    }
  }

  lemma {:induction false} LostRenameKeepsDisk(d: Device, newName: string, record: SaveOutcome, undo: SaveOutcome)
    requires Sane(d) && TookEffect(d, Adopt(newName, record, LostAfter, undo))
    ensures var after := Adopted(d, newName, record, LostAfter, undo).0;
            var first := Put(d.store.ram, PENDING_CLEANUP, Record(d.name, ALL_FLAGS));
            !after.store.on && after.store.disk == Some(Flash.Whole(Put(first, DEVICE_NAME, newName)))
  {
  }

  /** An adoption whose record does not reach the flash changes nothing but, perhaps, power. */
  lemma {:induction false} BlindAdoptionFails(d: Device, newName: string, record: SaveOutcome, rename: SaveOutcome,
                                              undo: SaveOutcome)
    requires Sane(d) && d.store.on && Blind(d) && !Reaches(record)
    ensures !TookEffect(d, Adopt(newName, record, rename, undo))
    ensures var after := Adopted(d, newName, record, rename, undo).0;
            after.store.disk == d.store.disk && after.store.ram == d.store.ram && after.flags == 0
  {
  }

  lemma {:induction false} BlindAdoptKeepsSound(l: Life, newName: string, record: SaveOutcome, rename: SaveOutcome,
                                                undo: SaveOutcome, name: string, tz: string)
    requires Sound(l) && Careful(l, Adopt(newName, record, rename, undo))
    requires l.device.store.on && Blind(l.device) && l.owed != {}
    ensures Sound(Next(l, Adopt(newName, record, rename, undo), name, tz))
  {
    AdoptedIsSane(l.device, newName, record, rename, undo);
    BlindAdoptionFails(l.device, newName, record, rename, undo);
  }

  lemma {:induction false} FreeAdoptKeepsSound(l: Life, newName: string, record: SaveOutcome, rename: SaveOutcome,
                                               undo: SaveOutcome, name: string, tz: string)
    requires Sound(l) && l.device.store.on && l.device.flags == 0 && l.owed == {}
    ensures Sound(Next(l, Adopt(newName, record, rename, undo), name, tz))
  {
    var d := l.device;
    AdoptedIsSane(d, newName, record, rename, undo);
    if TookEffect(d, Adopt(newName, record, rename, undo)) {
      AdoptionOwesBoth(d, newName, record, rename, undo);
      assert l.owed + {(d.name, Resources), (d.name, Status)} == {(d.name, Resources), (d.name, Status)};
    }
  }

  lemma {:induction false} AdoptKeepsSound(l: Life, newName: string, record: SaveOutcome, rename: SaveOutcome,
                                           undo: SaveOutcome, name: string, tz: string)
    requires Sound(l) && Careful(l, Adopt(newName, record, rename, undo))
    ensures Sound(Next(l, Adopt(newName, record, rename, undo), name, tz))
  {
    var d := l.device;
    if d.store.on && Blind(d) && l.owed != {} {
      BlindAdoptKeepsSound(l, newName, record, rename, undo, name, tz);
    } else if d.store.on && d.flags == 0 {
      assert forall o :: o in l.owed ==> Pending(d.flags, o.1);
      assert l.owed == {};
      FreeAdoptKeepsSound(l, newName, record, rename, undo, name, tz);
    } else {
      AdoptedIsSane(d, newName, record, rename, undo);
    }
  }

  // ----- power on

  lemma {:induction false} PutAllKeepsTable(es: seq<Entry>, doc: seq<Entry>)
    requires WellKept(es)
    ensures PutAll(es, doc).Some? ==> WellKept(PutAll(es, doc).value)
    decreases |doc|
  {
    if doc != [] && CanPut(es, doc[0].key) {
      GetAfterPut(es, doc[0].key, doc[0].value, doc[0].key, "");
      PutAllKeepsTable(Put(es, doc[0].key, doc[0].value), doc[1..]);
    }
  }

  lemma {:induction false} SettledKeepsTable(s: Store, key: string, stored: string, used: string, save: SaveOutcome)
    requires WellKept(s.ram)
    ensures WellKept(Settled(s, key, stored, used, save).ram)
    ensures !s.on ==> Settled(s, key, stored, used, save) == s
  {
    WithKeyKeepsTable(s, key, used, save);
  }

  lemma {:induction false} PendingLoadedIsSane(d: Device, save: SaveOutcome)
    requires Sane(d)
    ensures Sane(PendingLoaded(d, save))
  {
    WithoutKeyKeepsTable(d.store, PENDING_CLEANUP, save);
  }

  lemma {:induction false} BootedIsSane(disk: Document, name: string, tz: string, o: BootOutcome)
    requires ValidName(name)
    ensures Sane(Booted(disk, name, tz, o))
  {
    if disk.Some? && disk.value.Whole? { PutAllKeepsTable([], disk.value.doc); }
    var s := LoadedStore(Store(disk, [], true), o.load);
    var used, usedTz := UsedName(s, name), UsedTimezone(NameSettled(s, name, o.name), tz);
    SettledKeepsTable(s, DEVICE_NAME, Get(s.ram, DEVICE_NAME, name), used, o.name);
    var named := NameSettled(s, name, o.name);
    SettledKeepsTable(named, DEVICE_TIMEZONE, Get(named.ram, DEVICE_TIMEZONE, tz), usedTz, o.timezone);
    PendingLoadedIsSane(Device(TimezoneSettled(named, tz, o.timezone), used, "", 0, false), o.record);
  }

  /** Settling the timezone leaves a record in memory and on flash. */
  lemma {:induction false} TimezoneSettledCarries(s: Store, tz: string, save: SaveOutcome, oldName: string, flags: uint8)
    requires Carries(s.ram, oldName, flags) && s.disk == Some(Flash.Whole(s.ram))
    ensures var after := TimezoneSettled(s, tz, save);
            && Get(after.ram, DEVICE_NAME, "") == Get(s.ram, DEVICE_NAME, "") && Carries(after.ram, oldName, flags)
            && after.disk.Some? && after.disk.value.Whole? && Carries(after.disk.value.doc, oldName, flags)
  {
    if CanPut(s.ram, DEVICE_TIMEZONE) {
      CarriesAfterPut(s.ram, DEVICE_TIMEZONE, UsedTimezone(s, tz), oldName, flags);
      GetAfterPut(s.ram, DEVICE_TIMEZONE, UsedTimezone(s, tz), DEVICE_NAME, "");
    }
  }

  /** A file that carries a record is loaded entry for entry, and needs no name settled. */
  lemma {:induction false} LoadedCarries(disk: Document, name: string, save: SaveOutcome, oldName: string, flags: uint8)
    requires disk.Some? && disk.value.Whole? && Carries(disk.value.doc, oldName, flags)
    ensures var s := LoadedStore(Store(disk, [], true), Loaded);
            && s == Store(disk, disk.value.doc, true) && NameSettled(s, name, save) == s
            && UsedName(s, name) == Get(s.ram, DEVICE_NAME, "")
  {
    PutAllInOrder([], disk.value.doc);
    assert [] + disk.value.doc == disk.value.doc;
  }

  /** A boot that reads a file carrying a record takes that record up, under the stored name. */
  lemma {:induction false} BootTakesUpRecord(disk: Document, name: string, tz: string, o: BootOutcome,
                                             oldName: string, flags: uint8)
    requires disk.Some? && disk.value.Whole? && Carries(disk.value.doc, oldName, flags)
    requires o.load == Loaded
    ensures var d := Booted(disk, name, tz, o);
            && d.name == Get(disk.value.doc, DEVICE_NAME, "") && d.name != oldName
            && d.oldName == oldName && d.flags == flags && Agrees(d)
  {
    LoadedCarries(disk, name, o.name, oldName, flags);
    TimezoneSettledCarries(Store(disk, disk.value.doc, true), tz, o.timezone, oldName, flags);
  }

  lemma {:induction false} BootKeepsSound(l: Life, o: BootOutcome, name: string, tz: string)
    requires Sound(l) && ValidName(name) && ValidTimezone(tz) && Careful(l, Boot(o))
    ensures Sound(Next(l, Boot(o), name, tz))
  {
    var disk := l.device.store.disk;
    var d := Booted(disk, name, tz, o);
    BootedIsSane(disk, name, tz, o);
    if l.owed != {} {
      if o.load == Loaded {
        var any :| any in l.owed;
        assert OnFlash(disk, any.0, any.1);
        var flags: uint8 :| Carries(disk.value.doc, any.0, flags) && Pending(flags, any.1);
        forall p | p in l.owed ensures p.0 == any.0 && Pending(flags, p.1) {
          assert OnFlash(disk, p.0, p.1);
        }
        BootTakesUpRecord(disk, name, tz, o, any.0, flags);
        CarriedIsKept(d.store.disk.value.doc, d, l.owed);
      } else {
        BlindBootKeepsFile(disk, name, tz, o);
      }
    }
  }

  /** A boot that did not read its file, and saves nothing, leaves the file as it was and has no record in memory. */
  lemma {:induction false} BlindBootKeepsFile(disk: Document, name: string, tz: string, o: BootOutcome)
    requires ValidName(name) && ValidTimezone(tz) && o.load != Loaded && !Overwrites(o)
    ensures var d := Booted(disk, name, tz, o); d.store.disk == disk && (d.store.on ==> Blind(d))
  {
    match o.load
    case Loaded =>
    case LostLoading => BootWithoutPower(disk, name, tz, o);
    case Unread => SettlingFromNothing(disk, name, tz, o);
    case Unfound(save) =>
      match save {
        case Landed =>
        case Refused => SettlingFromNothing(disk, name, tz, o);
        case LostBefore => SettlingWithoutPower(disk, name, tz, o, []);
        case LostAfter =>
      }
  }

  lemma {:induction false} BootWithoutPower(disk: Document, name: string, tz: string, o: BootOutcome)
    requires o.load == LostLoading
    ensures var d := Booted(disk, name, tz, o); d.store.disk == disk && !d.store.on
  {
    var s := Store(disk, [], false);
    forall k, v, save ensures WithKey(s, k, v, save).0 == s {
      WithKeyKeepsTable(s, k, v, save);
    }
  }

  lemma {:induction false} StepKeepsSound(l: Life, e: Event, name: string, tz: string)
    requires Sound(l) && ValidName(name) && ValidTimezone(tz) && Careful(l, e)
    ensures Sound(Next(l, e, name, tz))
  {
    match e
    case Boot(o) => BootKeepsSound(l, o, name, tz);
    case Adopt(newName, record, rename, undo) => AdoptKeepsSound(l, newName, record, rename, undo, name, tz);
    case Complete(c, save) => CompleteKeepsSound(l, c, save, name, tz);
    case SetOther(key, value, save) => SetOtherKeepsSound(l, key, value, save, name, tz);
    case RemoveOther(key, save) => RemoveOtherKeepsSound(l, key, save, name, tz);
    case LockAddress =>
    case LosePower =>
  }

  function Run(l: Life, events: seq<Event>, name: string, tz: string): Life
    decreases |events|
  {
    if events == [] then l else Run(Next(l, events[0], name, tz), events[1..], name, tz)
  }

  /** A device fresh from the first boot over any settings file owes nothing. */
  function FirstBoot(disk: Document, o: BootOutcome, name: string, tz: string): Life {
    Life(Booted(disk, name, tz, o), {})
  }

  /** Every event finds the device in a state in which it is careful. */
  predicate AllCareful(l: Life, events: seq<Event>, name: string, tz: string)
    decreases |events|
  {
    events == [] || (Careful(l, events[0]) && AllCareful(Next(l, events[0], name, tz), events[1..], name, tz))
  }

  lemma {:induction false} RunKeepsSound(l: Life, events: seq<Event>, name: string, tz: string)
    requires Sound(l) && ValidName(name) && ValidTimezone(tz) && AllCareful(l, events, name, tz)
    ensures Sound(Run(l, events, name, tz))
    decreases |events|
  {
    if events != [] {
      StepKeepsSound(l, events[0], name, tz);
      RunKeepsSound(Next(l, events[0], name, tz), events[1..], name, tz);
    }
  }

  /**
   * Over every run of boots, adoptions, completions, other writes, crashes and failed writes: each cleanup still
   * owed is recorded on flash, and a boot that reads the file is handed it, never under its own name. A boot in between
   * may fail to read its file, as long as no save from its empty table reaches the flash.
   */
  lemma {:induction false} NoCleanupForgotten(disk: Document, first: BootOutcome, events: seq<Event>, name: string, tz: string,
                                              next: BootOutcome, oldName: string, c: Cleanup)
    requires ValidName(name) && ValidTimezone(tz) && next.load == Loaded
    requires AllCareful(FirstBoot(disk, first, name, tz), events, name, tz)
    requires (oldName, c) in Run(FirstBoot(disk, first, name, tz), events, name, tz).owed
    ensures var l := Run(FirstBoot(disk, first, name, tz), events, name, tz);
            var handed := Actionable(Booted(l.device.store.disk, name, tz, next));
            && OnFlash(l.device.store.disk, oldName, c)
            && handed.Some? && handed.value.oldName == oldName && Pending(handed.value.flags, c)
  {
    BootedIsSane(disk, name, tz, first);
    RunKeepsSound(FirstBoot(disk, first, name, tz), events, name, tz);
    var l := Run(FirstBoot(disk, first, name, tz), events, name, tz);
    assert OnFlash(l.device.store.disk, oldName, c);
    var flags: uint8 :| Carries(l.device.store.disk.value.doc, oldName, flags) && Pending(flags, c);
    BootTakesUpRecord(l.device.store.disk, name, tz, next, oldName, flags);
  }

  /** No boot, however it loaded, is handed its own running name to clean. */
  lemma {:induction false} NeverOwnName(disk: Document, name: string, tz: string, o: BootOutcome)
    ensures var d := Booted(disk, name, tz, o);
            d.flags != 0 ==> d.oldName != d.name && Actionable(d) == Some(Owed(d.oldName, d.flags))
  {
  }

  // ----- what a boot that does not read its file forgets

  /** Saving a default into a table without a record or that key: what memory and the file then hold. */
  lemma {:induction false} SettledWithoutRecord(s: Store, key: string, used: string, save: SaveOutcome)
    requires WellKept(s.ram) && |s.ram| < MAX_ENTRIES && !Has(s.ram, key) && !Has(s.ram, PENDING_CLEANUP)
    requires s.on && key != "" && key != PENDING_CLEANUP
    ensures var after := Settled(s, key, used, used, save);
            && !Has(after.ram, PENDING_CLEANUP) && (save == Refused ==> after == s)
            && after.ram == (if save == Landed then Put(s.ram, key, used) else s.ram)
            && (after.on <==> save == Landed || save == Refused)
            && if Reaches(save)
               then after.disk.Some? && after.disk.value.Whole? && !Has(after.disk.value.doc, PENDING_CLEANUP)
               else after.disk == s.disk
  {
    GetAfterPut(s.ram, key, used, PENDING_CLEANUP, "");
  }

  lemma {:induction false} SettlingFromNothing(disk: Document, name: string, tz: string, o: BootOutcome)
    requires ValidName(name) && ValidTimezone(tz)
    ensures var s := Store(disk, [], true);
            var after := TimezoneSettled(NameSettled(s, name, o.name), tz, o.timezone);
            && !Has(after.ram, PENDING_CLEANUP)
            && if Reaches(o.name) || (o.name == Refused && Reaches(o.timezone))
               then after.disk.Some? && after.disk.value.Whole? && !Has(after.disk.value.doc, PENDING_CLEANUP)
               else after.disk == disk
  {
    var s := Store(disk, [], true);
    SettledWithoutRecord(s, DEVICE_NAME, name, o.name);
    var named := NameSettled(s, name, o.name);
    GetAfterPut([], DEVICE_NAME, name, DEVICE_TIMEZONE, tz);
    if named.on {
      SettledWithoutRecord(named, DEVICE_TIMEZONE, tz, o.timezone);
    } else {
      SettledKeepsTable(named, DEVICE_TIMEZONE, Get(named.ram, DEVICE_TIMEZONE, tz), UsedTimezone(named, tz), o.timezone);
    }
  }

  lemma {:induction false} SettlingWithoutPower(disk: Document, name: string, tz: string, o: BootOutcome, ram: seq<Entry>)
    requires WellKept(ram)
    ensures var s := Store(disk, ram, false);
            TimezoneSettled(NameSettled(s, name, o.name), tz, o.timezone) == s
  {
    var s := Store(disk, ram, false);
    SettledKeepsTable(s, DEVICE_NAME, Get(s.ram, DEVICE_NAME, name), UsedName(s, name), o.name);
    SettledKeepsTable(s, DEVICE_TIMEZONE, Get(s.ram, DEVICE_TIMEZONE, tz), UsedTimezone(s, tz), o.timezone);
  }

  /**
   * The exact price of a boot that cannot see its file: the record survives that boot if and only if none of the
   * saves it makes from its empty table reaches the flash. The file can be whole all the while: a refused recovery
   * rename makes it go unfound, a refused read leaves it unread.
   */
  lemma {:induction false} RecordSurvivesBootIff(disk: Document, name: string, tz: string, o: BootOutcome, oldName: string,
                                                 flags: uint8, c: Cleanup)
    requires ValidName(name) && ValidTimezone(tz)
    requires disk.Some? && disk.value.Whole? && Carries(disk.value.doc, oldName, flags) && Pending(flags, c)
    ensures OnFlash(Booted(disk, name, tz, o).store.disk, oldName, c) <==> !Overwrites(o)
  {
    match o.load
    case Loaded => BootTakesUpRecord(disk, name, tz, o, oldName, flags);
    case LostLoading => BootWithoutPower(disk, name, tz, o);
    case Unread => SettlingFromNothing(disk, name, tz, o);
    case Unfound(save) =>
      match save {
        case Landed => SettlingFromNothing(Some(Flash.Whole([])), name, tz, o);
        case Refused => SettlingFromNothing(disk, name, tz, o);
        case LostBefore => SettlingWithoutPower(disk, name, tz, o, []);
        case LostAfter => SettlingWithoutPower(Some(Flash.Whole([])), name, tz, o, []);
      }
  }

  /**
   * What another setting saved by a boot without the record costs: the record stays on flash if and only if that save
   * does not reach it.
   */
  lemma {:induction false} BlindSaveForgetsIff(d: Device, key: string, value: string, save: SaveOutcome,
                                               oldName: string, c: Cleanup)
    requires Sane(d) && d.store.on && Blind(d) && OnFlash(d.store.disk, oldName, c)
    requires !FrameworkKey(key) && CanPut(d.store.ram, key)
    ensures OnFlash(WithKey(d.store, key, value, save).0.disk, oldName, c) <==> !Reaches(save)
  {
    GetAfterPut(d.store.ram, key, value, PENDING_CLEANUP, "");
  }

  // ----- what an adoption answers, and which name comes of it

  lemma {:induction false} RoomForBoth(ram: seq<Entry>, record: string)
    requires WellKept(ram) && CanPut(ram, PENDING_CLEANUP)
    ensures CanPut(Put(ram, PENDING_CLEANUP, record), DEVICE_NAME) <==>
            Has(ram, DEVICE_NAME) || (if Has(ram, PENDING_CLEANUP) then |ram| < MAX_ENTRIES else |ram| + 1 < MAX_ENTRIES)
  {
    GetAfterPut(ram, PENDING_CLEANUP, record, DEVICE_NAME, "");
  }

  /** The two saves of an adoption find room, and both are reported done. */
  predicate BothSaved(d: Device, record: SaveOutcome, rename: SaveOutcome) {
    && record == Landed && rename == Landed && CanPut(d.store.ram, PENDING_CLEANUP)
    && (|| Has(d.store.ram, DEVICE_NAME)
        || (if Has(d.store.ram, PENDING_CLEANUP) then |d.store.ram| < MAX_ENTRIES else |d.store.ram| + 1 < MAX_ENTRIES))
  }

  lemma {:induction false} RecordedIff(d: Device, record: SaveOutcome)
    requires Sane(d) && d.store.on
    ensures var (after, ok) := Recorded(d, record);
            && (ok <==> record == Landed && CanPut(d.store.ram, PENDING_CLEANUP))
            && after == d.(store := after.store, oldName := d.name, flags := ALL_FLAGS)
            && (ok ==> after.store.on && after.store.ram == Put(d.store.ram, PENDING_CLEANUP, Record(d.name, ALL_FLAGS)))
  {
  }

  lemma {:induction false} RenamedIff(d: Device, newName: string, rename: SaveOutcome)
    requires d.store.on && ValidName(newName)
    ensures var (after, ok) := Renamed(d, newName, rename);
            (ok <==> rename == Landed && CanPut(d.store.ram, DEVICE_NAME)) && after == d.(store := after.store)
  {
  }

  lemma {:induction false} PersistedTouchesStore(d: Device, save: SaveOutcome)
    ensures Persisted(d, save).0 == d.(store := Persisted(d, save).0.store)
  {
  }

  /**
   * A new name is adopted exactly when it is valid, no cleanup is pending and it is the running name already or both
   * saves succeed. The device then runs under the new name at once, unless its address is locked; a refusal leaves it
   * called what it was, with nothing pending that was not.
   */
  lemma {:induction false} AdoptedIff(d: Device, newName: string, record: SaveOutcome, rename: SaveOutcome, undo: SaveOutcome)
    requires Sane(d) && d.store.on
    ensures var (after, ok) := Adopted(d, newName, record, rename, undo);
            && (ok <==> ValidName(newName) && d.flags == 0 && (newName == d.name || BothSaved(d, record, rename)))
            && after.locked == d.locked
            && (ok ==> after.name == if d.locked then d.name else newName)
            && (ok && newName != d.name ==> after.oldName == d.name && after.flags == ALL_FLAGS)
            && (ok && newName == d.name ==> after == d)
            && (!ok ==> after.name == d.name && after.flags == d.flags)
  {
    if ValidName(newName) && d.flags == 0 && newName != d.name {
      RecordedIff(d, record);
      var (d1, recorded) := Recorded(d, record);
      if recorded {
        RoomForBoth(d.store.ram, Record(d.name, ALL_FLAGS));
        RenamedIff(d1, newName, rename);
        PersistedTouchesStore(Renamed(d1, newName, rename).0.(oldName := "", flags := 0), undo);
      }
    }
  }

  /** Locked or not, the next boot that reads its file runs under the adopted name, and cleans up after the old one. */
  lemma {:induction false} NextBootHasNewName(d: Device, newName: string, record: SaveOutcome, rename: SaveOutcome,
                                              undo: SaveOutcome, default: string, tz: string, o: BootOutcome)
    requires Sane(d) && d.store.on && newName != d.name && Adopted(d, newName, record, rename, undo).1
    requires o.load == Loaded
    ensures var booted := Booted(Adopted(d, newName, record, rename, undo).0.store.disk, default, tz, o);
            booted.name == newName && Actionable(booted) == Some(Owed(d.name, ALL_FLAGS))
  {
    var written := Record(d.name, ALL_FLAGS);
    var first := Put(d.store.ram, PENDING_CLEANUP, written);
    var doc := Put(first, DEVICE_NAME, newName);
    AdoptionRecorded(d.store.ram, d.name, newName);
    GetAfterPut(d.store.ram, PENDING_CLEANUP, written, PENDING_CLEANUP, "");
    GetAfterPut(first, DEVICE_NAME, newName, DEVICE_NAME, "");
    assert Adopted(d, newName, record, rename, undo).0.store.disk == Some(Flash.Whole(doc));
    BootTakesUpRecord(Some(Flash.Whole(doc)), default, tz, o, d.name, ALL_FLAGS);
  }

  // ----- what a true answer means

  /** A record with fewer bits is no longer a record of the bit that was cleared. */
  lemma {:induction false} RewrittenIsCleared(es: seq<Entry>, oldName: string, fewer: uint8, c: Cleanup)
    requires WellKept(es) && CanPut(es, PENDING_CLEANUP) && ValidName(oldName) && 0 < fewer <= ALL_FLAGS && !Pending(fewer, c)
    ensures !OnFlash(Some(Flash.Whole(Put(es, PENDING_CLEANUP, Record(oldName, fewer)))), oldName, c)
  {
    var after := Put(es, PENDING_CLEANUP, Record(oldName, fewer));
    GetAfterPut(es, PENDING_CLEANUP, Record(oldName, fewer), PENDING_CLEANUP, "");
    RecordRoundTrip(oldName, fewer, Get(after, DEVICE_NAME, ""));
  }

  /**
   * A cleanup reported done and answered true, its record still on flash: that happens if and only if the bit is the last
   * one, the table in memory has lost the record already, and the file has not.
   */
  lemma {:induction false} TrueReportRecordRemainsIff(d: Device, c: Cleanup, save: SaveOutcome)
    requires Sane(d) && d.store.on && Pending(d.flags, c) && ValidName(d.oldName)
    ensures var (after, told) := Completed(d, c, save);
            told && OnFlash(after.store.disk, d.oldName, c) <==>
            Cleared(d.flags, c) == 0 && !Has(d.store.ram, PENDING_CLEANUP) && OnFlash(d.store.disk, d.oldName, c)
  {
    var fewer := Cleared(d.flags, c);
    if fewer != 0 {
      if CanPut(d.store.ram, PENDING_CLEANUP) {
        RewrittenIsCleared(d.store.ram, d.oldName, fewer, c);
      }
    } else if Has(d.store.ram, PENDING_CLEANUP) {
      GetAfterDrop(d.store.ram, PENDING_CLEANUP, PENDING_CLEANUP, "");
    }
  }

  /** Devices come to that: a first report whose write is refused, and a second one. */
  lemma {:induction false} TrueReportRecordRemains(d: Device, c: Cleanup, save: SaveOutcome)
    requires Sane(d) && d.store.on && Pending(d.flags, c) && Cleared(d.flags, c) == 0 && Agrees(d)
    ensures var (first, told) := Completed(d, c, Refused);
            var (second, toldAgain) := Completed(first, c, save);
            !told && toldAgain && second.flags == 0 && OnFlash(second.store.disk, d.oldName, c)
  {
    DropKeeps(d.store.ram, PENDING_CLEANUP);
    GetAfterDrop(d.store.ram, PENDING_CLEANUP, PENDING_CLEANUP, "");
    var first := Completed(d, c, Refused).0;
    TrueReportRecordRemainsIff(first, c, save);
    assert OnFlash(d.store.disk, d.oldName, c);
  }

  lemma {:induction false} SettledKeepsOther(s: Store, key: string, stored: string, used: string, other: string, default: string)
    requires WellKept(s.ram) && key != other
    ensures forall save :: Get(Settled(s, key, stored, used, save).ram, other, default) == Get(s.ram, other, default)
  {
    if CanPut(s.ram, key) { GetAfterPut(s.ram, key, used, other, default); }
  }

  // ----- the device as it is written

  class DeviceIdentity {
    const settings: StateStore
    const defaultName: string
    const defaultTimezone: string
    var deviceName: string
    var timezone: string
    var initialized: bool
    var addressLocked: bool
    var pendingOldName: string
    var pendingFlags: uint8

    ghost predicate Valid()
      reads this, settings, settings.ram, settings.ram.entries
    {
      settings.Valid() && (!settings.initialized ==> settings.ram.Contents() == [])
    }

    /** Both this object and its settings are up: what a mounted boot leaves behind. */
    ghost predicate Ready()
      reads this, settings
    {
      initialized && settings.initialized
    }

    ghost function View(): Device
      reads this, settings, settings.ram, settings.ram.entries, settings.storage, settings.storage.flash
      requires settings.Valid()
    {
      Device(settings.View(), deviceName, pendingOldName, pendingFlags, addressLocked)
    }

    /** The hardware-derived default name and the configured timezone are fixed when the device is built. */
    constructor (settings: StateStore, defaultName: string, defaultTimezone: string)
      requires settings.Valid() && (!settings.initialized ==> settings.ram.Contents() == [])
      ensures this.settings == settings && this.defaultName == defaultName && this.defaultTimezone == defaultTimezone
      ensures Valid() && !initialized && pendingFlags == 0 && pendingOldName == "" && !addressLocked
    {
      this.settings, this.defaultName, this.defaultTimezone := settings, defaultName, defaultTimezone;
      deviceName, timezone, initialized, addressLocked := "", "", false, false;
      pendingOldName, pendingFlags := "", 0;
    }

    method PersistPendingCleanup() returns (ok: bool, ghost outcome: SaveOutcome)
      requires Valid()
      modifies settings, settings.ram, settings.ram.entries, settings.storage, settings.storage.flash
      ensures Valid() && (old(settings.initialized) ==> settings.initialized)
      ensures old(settings.initialized) ==> (View(), ok) == Persisted(old(View()), outcome)
    {
      outcome := LostBefore;
      ghost var loaded;
      if pendingFlags == 0 {
        var record;
        record, loaded := settings.Lookup(PENDING_CLEANUP);
        if record.None? {
          return true, outcome;
        }
        ok, loaded, outcome := settings.Remove(PENDING_CLEANUP);
      } else {
        ok, loaded, outcome := settings.Set(PENDING_CLEANUP, Record(pendingOldName, pendingFlags));
      }
    }

    method LoadPendingCleanup() returns (ghost outcome: SaveOutcome)
      requires Valid() && settings.initialized
      modifies this`pendingOldName, this`pendingFlags
      modifies settings, settings.ram, settings.ram.entries, settings.storage, settings.storage.flash
      ensures Valid() && settings.initialized
      ensures View() == PendingLoaded(old(View()), outcome)
    {
      outcome := LostBefore;
      ghost var loaded;
      var record;
      record, loaded := settings.Lookup(PENDING_CLEANUP);
      if record.None? {
        return;
      }
      var owed := ParseRecord(record.value, deviceName);
      if owed.Some? {
        pendingOldName, pendingFlags := owed.value.oldName, owed.value.flags;
        return;
      }
      var ok;
      ok, loaded, outcome := settings.Remove(PENDING_CLEANUP);
    }

    /** Saves `used` under a key that is missing or holds something else. */
    method Settle(key: string, stored: string, used: string) returns (ghost outcome: SaveOutcome)
      requires Valid() && settings.initialized
      modifies settings, settings.ram, settings.ram.entries, settings.storage, settings.storage.flash
      ensures Valid() && settings.initialized
      ensures settings.View() == Settled(old(settings.View()), key, stored, used, outcome)
    {
      outcome := LostBefore;
      ghost var loaded;
      var present;
      present, loaded := settings.Lookup(key);
      if present.None? || stored != used {
        var ok;
        ok, loaded, outcome := settings.Set(key, used);
      }
    }

    /** Once per boot; the name and timezone fall back to the defaults when the settings cannot be used. */
    method Begin() returns (ghost o: BootOutcome)
      requires Valid()
      modifies this, settings, settings.ram, settings.ram.entries, settings.storage, settings.storage.flash
      ensures Valid() && initialized && (old(initialized) ==> View() == old(View()) && Ready() == old(Ready()))
      ensures !old(initialized) && !old(settings.initialized) && settings.initialized && old(View().store.on)
              && old(pendingFlags == 0 && pendingOldName == "" && !addressLocked) ==>
        View() == Booted(old(View()).store.disk, defaultName, defaultTimezone, o)
    {
      o := BootOutcome(Unread, LostBefore, LostBefore, LostBefore);
      if initialized {
        return;
      }
      ghost var load;
      var ready;
      ready, load := settings.Begin();
      initialized := true;
      if ready {
        ghost var name, zone, record := SettleStored();
        o := BootOutcome(load, name, zone, record);
      } else {
        deviceName, timezone := defaultName, defaultTimezone;
      }
    }

    /** The rest of `Begin` over settings that are up. */
    method SettleStored() returns (ghost name: SaveOutcome, ghost zone: SaveOutcome, ghost record: SaveOutcome)
      requires Valid() && settings.initialized
      modifies this`deviceName, this`timezone, this`pendingOldName, this`pendingFlags
      modifies settings, settings.ram, settings.ram.entries, settings.storage, settings.storage.flash
      ensures Valid() && settings.initialized
      ensures var s := old(settings.View());
              View() == PendingLoaded(
                old(View()).(store := TimezoneSettled(NameSettled(s, defaultName, name), defaultTimezone, zone),
                             name := UsedName(s, defaultName)),
                record)
    {
      name, zone := SettleNameAndZone();
      record := LoadPendingCleanup();
    }

    method SettleNameAndZone() returns (ghost name: SaveOutcome, ghost zone: SaveOutcome)
      requires Valid() && settings.initialized
      modifies this`deviceName, this`timezone
      modifies settings, settings.ram, settings.ram.entries, settings.storage, settings.storage.flash
      ensures Valid() && settings.initialized
      ensures settings.View() == TimezoneSettled(NameSettled(old(settings.View()), defaultName, name), defaultTimezone, zone)
      ensures deviceName == UsedName(old(settings.View()), defaultName)
    {
      var storedName := Stored(DEVICE_NAME, defaultName);
      var storedTimezone := Stored(DEVICE_TIMEZONE, defaultTimezone);
      deviceName := if ValidName(storedName) then storedName else defaultName;
      timezone := if ValidTimezone(storedTimezone) then storedTimezone else defaultTimezone;
      SettledKeepsOther(settings.View(), DEVICE_NAME, storedName, deviceName, DEVICE_TIMEZONE, defaultTimezone);
      name := Settle(DEVICE_NAME, storedName, deviceName);
      zone := Settle(DEVICE_TIMEZONE, storedTimezone, timezone);
    }

    method Stored(key: string, default: string) returns (value: string)
      requires Valid() && settings.initialized
      modifies settings, settings.ram, settings.ram.entries, settings.storage, settings.storage.flash
      ensures Valid() && settings.initialized && settings.View() == old(settings.View())
      ensures value == Get(settings.View().ram, key, default)
    {
      var found, _ := settings.Lookup(key);
      value := if found.Some? then found.value else default;
    }

    method LockAddress()
      requires settings.Valid()
      modifies this`addressLocked
      ensures View() == old(View()).(locked := true)
    {
      addressLocked := true;
    }

    /** Records the running name for cleanup, then persists the new one; each failure is undone. */
    method BeginAdoption(newName: string)
      returns (ok: bool, ghost record: SaveOutcome, ghost rename: SaveOutcome, ghost undo: SaveOutcome)
      requires Valid()
      modifies this, settings, settings.ram, settings.ram.entries, settings.storage, settings.storage.flash
      ensures Valid() && initialized && (old(Ready()) ==> Ready())
      ensures old(Ready()) ==> (View(), ok) == Adopted(old(View()), newName, record, rename, undo)
    {
      record, rename, undo := LostBefore, LostBefore, LostBefore;
      ghost var _ := Begin();
      if !ValidName(newName) || pendingFlags != 0 {
        return false, record, rename, undo;
      }
      if newName == deviceName {
        return true, record, rename, undo;
      }
      ok, record, rename, undo := MoveTo(newName);
    }

    /** The two writes of an adoption that goes ahead. */
    method MoveTo(newName: string)
      returns (ok: bool, ghost record: SaveOutcome, ghost rename: SaveOutcome, ghost undo: SaveOutcome)
      requires Valid() && ValidName(newName) && pendingFlags == 0 && newName != deviceName
      modifies this`deviceName, this`pendingOldName, this`pendingFlags
      modifies settings, settings.ram, settings.ram.entries, settings.storage, settings.storage.flash
      ensures Valid() && (old(settings.initialized) ==> settings.initialized)
      ensures old(settings.initialized) ==> (View(), ok) == Adopted(old(View()), newName, record, rename, undo)
    {
      record, rename, undo := LostBefore, LostBefore, LostBefore;
      pendingOldName, pendingFlags := deviceName, ALL_FLAGS;
      ok, record := PersistPendingCleanup();
      if !ok {
        pendingOldName, pendingFlags := "", 0;
        return;
      }
      ghost var loaded;
      ok, loaded, rename := settings.Set(DEVICE_NAME, newName);
      if !ok {
        pendingOldName, pendingFlags := "", 0;
        var undone;
        undone, undo := PersistPendingCleanup();
        return;
      }
      if !addressLocked {
        deviceName := newName;
      }
    }

    method GetPendingIdentityCleanup() returns (cleanup: Option<Owed>)
      requires Valid()
      modifies this, settings, settings.ram, settings.ram.entries, settings.storage, settings.storage.flash
      ensures Valid() && initialized
      ensures old(Ready()) ==> View() == old(View()) && Ready()
      ensures cleanup == Actionable(View())
    {
      ghost var _ := Begin();
      if pendingFlags == 0 || pendingOldName == deviceName {
        return None;
      }
      cleanup := Some(Owed(pendingOldName, pendingFlags));
    }

    /** Clears one participant's bit once the record on flash says so; otherwise memory goes back to match it. */
    method MarkIdentityCleanupComplete(c: Cleanup) returns (ok: bool, ghost outcome: SaveOutcome)
      requires Valid()
      modifies this, settings, settings.ram, settings.ram.entries, settings.storage, settings.storage.flash
      ensures Valid() && initialized && (old(Ready()) ==> Ready())
      ensures old(Ready()) ==> (View(), ok) == Completed(old(View()), c, outcome)
    {
      outcome := LostBefore;
      ghost var _ := Begin();
      if !Pending(pendingFlags, c) {
        return true, outcome;
      }
      ok, outcome := ClearBit(c);
    }

    method ClearBit(c: Cleanup) returns (ok: bool, ghost outcome: SaveOutcome)
      requires Valid() && Pending(pendingFlags, c)
      modifies this`pendingOldName, this`pendingFlags
      modifies settings, settings.ram, settings.ram.entries, settings.storage, settings.storage.flash
      ensures Valid() && (old(settings.initialized) ==> settings.initialized)
      ensures old(settings.initialized) ==> (View(), ok) == Completed(old(View()), c, outcome)
    {
      var previousFlags, previousName := pendingFlags, pendingOldName;
      pendingFlags := Cleared(pendingFlags, c);
      if pendingFlags == 0 {
        pendingOldName := "";
      }
      ok, outcome := PersistPendingCleanup();
      if !ok {
        pendingFlags, pendingOldName := previousFlags, previousName;
      }
    }
  }

  // ----- the client that does the cleaning

  datatype CleanupResult = NothingPending | StillPending | AllDone

  /** How the work of one round went: the retained resources withdrawn, the status published offline, then cleared. */
  datatype Work = Work(withdrawn: bool, offline: bool, cleared: bool)

  /** One round of `processPendingIdentityCleanup`: each bit is reported done only after its own work. */
  method ProcessPendingIdentityCleanup(identity: DeviceIdentity, work: Work)
    returns (result: CleanupResult, ghost resources: SaveOutcome, ghost status: SaveOutcome)
    requires identity.Valid() && identity.Ready()
    modifies identity, identity.settings, identity.settings.ram, identity.settings.ram.entries
    modifies identity.settings.storage, identity.settings.storage.flash
    ensures identity.Valid() && identity.Ready()
    ensures identity.View() == Processed(old(identity.View()), work, resources, status)
    ensures result == if old(identity.View()).flags == 0 then NothingPending
                      else if identity.View().flags != 0 then StillPending else AllDone
  {
    resources, status := LostBefore, LostBefore;
    if identity.pendingFlags == 0 {
      return NothingPending, resources, status;
    }
    var cleanup := identity.GetPendingIdentityCleanup();
    if cleanup.None? {
      return StillPending, resources, status;
    }
    if Pending(cleanup.value.flags, Resources) && work.withdrawn {
      var done;
      done, resources := identity.MarkIdentityCleanupComplete(Resources);
    }
    if Pending(cleanup.value.flags, Status) && work.offline && work.cleared {
      var done;
      done, status := identity.MarkIdentityCleanupComplete(Status);
    }
    result := if identity.pendingFlags != 0 then StillPending else AllDone;
  }

  function Processed(d: Device, work: Work, resources: SaveOutcome, status: SaveOutcome): Device {
    if Actionable(d).None? then d
    else
      var first := if Pending(d.flags, Resources) && work.withdrawn then Completed(d, Resources, resources).0 else d;
      if Pending(d.flags, Status) && work.offline && work.cleared then Completed(first, Status, status).0 else first
  }

  lemma {:induction false} CompletedKeepsOthers(d: Device, c: Cleanup, other: Cleanup, save: SaveOutcome)
    requires Sane(d) && other != c
    ensures Sane(Completed(d, c, save).0)
    ensures Pending(Completed(d, c, save).0.flags, other) <==> Pending(d.flags, other)
  {
    var fewer := Cleared(d.flags, c);
    CompletedIsSane(d, c, save);
    PersistedKeepsTable(d.(flags := fewer, oldName := if fewer == 0 then "" else d.oldName), save);
  }

  /** No bit goes before its work is done, and none at all while the device still runs under the old name. */
  lemma {:induction false} NothingReportedUndone(d: Device, work: Work, resources: SaveOutcome, status: SaveOutcome)
    requires Sane(d)
    ensures var after := Processed(d, work, resources, status);
            && (Pending(d.flags, Resources) && !work.withdrawn ==> Pending(after.flags, Resources))
            && (Pending(d.flags, Status) && !(work.offline && work.cleared) ==> Pending(after.flags, Status))
            && (d.oldName == d.name ==> after == d)
  {
    CompletedKeepsOthers(d, Resources, Status, resources);
    var first := if Pending(d.flags, Resources) && work.withdrawn then Completed(d, Resources, resources).0 else d;
    CompletedKeepsOthers(first, Status, Resources, status);
  }
}
