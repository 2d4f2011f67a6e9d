/** The key/value table of `RuntimeState`, and `StateStore`, which keeps one on flash. */
module Settings {
  import opened Common
  import Flash = Storage

  const MAX_ENTRIES := 128
  const SETTINGS_FILE := "/configs.json"

  datatype Entry = Entry(key: string, value: string)

  // ----- the table as a sequence of entries

  predicate Distinct(es: seq<Entry>) {
    forall i, j :: 0 <= i < j < |es| ==> es[i].key != es[j].key
  }

  /** A table the class can hold: bounded, no key twice, no empty key. */
  predicate WellKept(es: seq<Entry>) {
    |es| <= MAX_ENTRIES && Distinct(es) && forall e :: e in es ==> e.key != ""
  }

  /** The position of a key, or |es|. */
  function Find(es: seq<Entry>, key: string): (i: nat)
    ensures i <= |es|
    ensures forall j :: 0 <= j < i ==> es[j].key != key
    ensures i < |es| ==> es[i].key == key
  {
    if es == [] || es[0].key == key then 0 else 1 + Find(es[1..], key)
  }

  predicate Has(es: seq<Entry>, key: string) {
    Find(es, key) < |es|
  }

  function Get(es: seq<Entry>, key: string, default: string): string {
    var i := Find(es, key);
    if i < |es| then es[i].value else default
  }

  predicate CanPut(es: seq<Entry>, key: string) {
    key != "" && (Has(es, key) || |es| < MAX_ENTRIES)
  }

  function Put(es: seq<Entry>, key: string, value: string): seq<Entry> {
    var i := Find(es, key);
    if i < |es| then es[i := Entry(key, value)] else es + [Entry(key, value)]
  }

  function Drop(es: seq<Entry>, key: string): seq<Entry> {
    var i := Find(es, key);
    if i < |es| then es[..i] + es[i + 1..] else es
  }

  lemma {:induction false} FindUnique(es: seq<Entry>, key: string, i: nat)
    requires Distinct(es) && i < |es| && es[i].key == key
    ensures Find(es, key) == i
  {
    var f := Find(es, key);
    assert !(i < f);
  }

  /** Putting a key sets that key and no other, and keeps the table well kept. */
  lemma {:induction false} GetAfterPut(es: seq<Entry>, key: string, value: string, other: string, default: string)
    requires WellKept(es) && CanPut(es, key)
    ensures WellKept(Put(es, key, value))
    ensures Get(Put(es, key, value), other, default) == if other == key then value else Get(es, other, default)
    ensures Has(Put(es, key, value), other) <==> other == key || Has(es, other)
  {
    var after := Put(es, key, value);
    var i := Find(es, key);
    assert after[i].key == key;
    assert Distinct(after);
    FindUnique(after, key, i);
    if other != key {
      var o := Find(es, other);
      if o < |es| {
        assert after[o] == es[o];
        FindUnique(after, other, o);
      } else {
        assert forall k :: 0 <= k < |after| ==> after[k].key != other;
      }
    }
  }

  lemma {:induction false} DropElements(es: seq<Entry>, key: string)
    requires Has(es, key)
    ensures |Drop(es, key)| == |es| - 1
    ensures forall k :: 0 <= k < Find(es, key) ==> Drop(es, key)[k] == es[k]
    ensures forall k :: Find(es, key) <= k < |es| - 1 ==> Drop(es, key)[k] == es[k + 1]
  {
  }

  lemma {:induction false} DropKeeps(es: seq<Entry>, key: string)
    requires WellKept(es)
    ensures WellKept(Drop(es, key))
  {
    if Has(es, key) {
      DropElements(es, key);
      var after, i := Drop(es, key), Find(es, key);
      forall x, y | 0 <= x < y < |after| ensures after[x].key != after[y].key {
        assert es[if x < i then x else x + 1].key != es[if y < i then y else y + 1].key;
      }
      forall e | e in after ensures e.key != "" {
        var k :| 0 <= k < |after| && after[k] == e;
        assert e in es;
      }
    }
  }

  /** Dropping a key removes that key and no other. */
  lemma {:induction false} GetAfterDrop(es: seq<Entry>, key: string, other: string, default: string)
    requires WellKept(es)
    ensures WellKept(Drop(es, key))
    ensures Get(Drop(es, key), other, default) == if other == key then default else Get(es, other, default)
    ensures Has(Drop(es, key), other) <==> other != key && Has(es, other)
  {
    DropKeeps(es, key);
    if Has(es, key) {
      DropElements(es, key);
      var after, i, o := Drop(es, key), Find(es, key), Find(es, other);
      if other != key && o < |es| {
        FindUnique(after, other, if o < i then o else o - 1);
      } else {
        forall k | 0 <= k < |after| ensures after[k].key != other {
          var j := if k < i then k else k + 1;
          assert after[k] == es[j] && es[j].key != es[i].key;
        }
        FindIs(after, other, |after|);
      }
    }
  }

  /** Taking back a put that could not be saved restores the table exactly, order included. */
  lemma {:induction false} PutUndone(es: seq<Entry>, key: string, value: string)
    requires WellKept(es) && CanPut(es, key)
    ensures Has(es, key) ==> Put(Put(es, key, value), key, Get(es, key, "")) == es
    ensures !Has(es, key) ==> Drop(Put(es, key, value), key) == es
  {
    var i := Find(es, key);
    var after := Put(es, key, value);
    assert after[i].key == key;
    assert forall k :: 0 <= k < i ==> after[k] == es[k];
    assert Find(after, key) == i by {
      assert Distinct(after);
      FindUnique(after, key, i);
    }
    if Has(es, key) {
      assert after[i := Entry(key, es[i].value)] == es;
    }
  }

  // ----- the table as it is written

  class RuntimeState {
    const entries: array<Entry>
    var count: nat

    ghost predicate Valid()
      reads this, entries
    {
      entries.Length == MAX_ENTRIES && count <= MAX_ENTRIES && WellKept(entries[..count])
    }

    ghost function Contents(): seq<Entry>
      reads this, entries
      requires count <= entries.Length
    {
      entries[..count]
    }

    constructor ()
      ensures Valid() && fresh(entries) && Contents() == []
    {
      entries := new Entry[MAX_ENTRIES](_ => Entry("", ""));
      count := 0;
    }

    method IndexOf(key: string) returns (i: nat)
      requires Valid()
      ensures i == Find(Contents(), key)
    {
      i := 0;
      while i < count && entries[i].key != key
        invariant i <= count
        invariant forall k :: 0 <= k < i ==> entries[k].key != key
      {
        i := i + 1;
      }
      FindIs(Contents(), key, i);
    }

    method Set(key: string, value: string) returns (ok: bool)
      requires Valid()
      modifies this, entries
      ensures Valid()
      ensures ok <==> CanPut(old(Contents()), key)
      ensures Contents() == if ok then Put(old(Contents()), key, value) else old(Contents())
    {
      if key == "" {
        return false;
      }
      ghost var was := Contents();
      var i := IndexOf(key);
      if i >= count && count >= MAX_ENTRIES {
        return false;
      }
      GetAfterPut(was, key, value, key, "");
      entries[i] := Entry(key, value);
      if i == count {
        count := count + 1;
      }
      ok := true;
      assert Contents() == Put(was, key, value);
    }

    /** Moves every entry after position i one slot down. */
    method ShiftDown(i: nat)
      requires i < count <= entries.Length
      modifies entries
      ensures entries[..count - 1] == old(Contents()[..i] + Contents()[i + 1..])
    {
      ghost var was := Contents();
      var j := i + 1;
      while j < count
        invariant i + 1 <= j <= count
        invariant entries[..j - 1] == was[..i] + was[i + 1..j]
        invariant entries[j..count] == was[j..]
      {
        assert was[i + 1..j + 1] == was[i + 1..j] + [entries[j]];
        entries[j - 1] := entries[j];
        assert entries[..j] == entries[..j - 1] + [was[j]];
        j := j + 1;
      }
    }

    /** Gives up the last slot in use, and blanks it. */
    method DropLast()
      requires 0 < count <= entries.Length
      modifies this`count, entries
      ensures count == old(count) - 1 && Contents() == old(entries[..count - 1])
    {
      count := count - 1;
      entries[count] := Entry("", "");
      assert entries[..count] == old(entries[..count - 1]);
    }

    method Remove(key: string) returns (ok: bool)
      requires Valid()
      modifies this, entries
      ensures Valid()
      ensures ok <==> Has(old(Contents()), key)
      ensures Contents() == Drop(old(Contents()), key)
    {
      ghost var was := Contents();
      DropKeeps(was, key);
      var i := IndexOf(key);
      if i >= count {
        return false;
      }
      DropElements(was, key);
      ShiftDown(i);
      DropLast();
      ok := true;
    }

    method Clear()
      requires Valid()
      modifies this, entries
      ensures Valid() && Contents() == []
    {
      while count != 0
        invariant Valid()
        decreases count
      {
        DropLast();
      }
    }
  }

  lemma {:induction false} FindIs(es: seq<Entry>, key: string, i: nat)
    requires i <= |es| && (forall k :: 0 <= k < i ==> es[k].key != key) && (i == |es| || es[i].key == key)
    ensures Find(es, key) == i
  {
    var f := Find(es, key);
    assert !(f < i);
    assert !(i < f);
  }

  // ----- the table on flash

  type Document = Option<Flash.Content<seq<Entry>>>

  /** How one whole-file save ended: reported landed or refused, or power went with the old file or the new one in place. */
  datatype SaveOutcome = Landed | Refused | LostBefore | LostAfter

  /**
   * How one load ended: the file was read, could not be read, was not found and an empty one saved, or power went.
   * A file can go unfound while its backup holds the content: the rename that would recover it was refused.
   */
  datatype LoadOutcome = Loaded | Unread | Unfound(save: SaveOutcome) | LostLoading

  /** The settings file, the table in memory, and whether there is still power. */
  datatype Store = Store(disk: Document, ram: seq<Entry>, on: bool)

  function Saved(s: Store, outcome: SaveOutcome): (Store, bool) {
    if !s.on then (s, false)
    else
      var file := Some(Flash.Whole(s.ram));
      match outcome
      case Landed => (s.(disk := file), true)
      case Refused => (s, false)
      case LostBefore => (s.(on := false), false)
      case LostAfter => (s.(disk := file, on := false), false)
  }

  /** A set that could not be saved is taken back in memory. */
  function WithKey(s: Store, key: string, value: string, outcome: SaveOutcome): (Store, bool) {
    if !CanPut(s.ram, key) then (s, false)
    else
      var (after, ok) := Saved(s.(ram := Put(s.ram, key, value)), outcome);
      (if ok then after else after.(ram := s.ram), ok)
  }

  /** A remove that could not be saved is not taken back: memory has lost the key, the file has not. */
  function WithoutKey(s: Store, key: string, outcome: SaveOutcome): (Store, bool) {
    if !Has(s.ram, key) then (s, false) else Saved(s.(ram := Drop(s.ram, key)), outcome)
  }

  function PutAll(es: seq<Entry>, doc: seq<Entry>): Option<seq<Entry>>
    decreases |doc|
  {
    if doc == [] then Some(es)
    else if !CanPut(es, doc[0].key) then None
    else PutAll(Put(es, doc[0].key, doc[0].value), doc[1..])
  }

  function Parsed(doc: seq<Entry>): seq<Entry> {
    var all := PutAll([], doc);
    if all.Some? then all.value else []
  }

  function LoadedStore(s: Store, outcome: LoadOutcome): Store {
    match outcome
    case Loaded => s.(ram := if s.disk.Some? && s.disk.value.Whole? then Parsed(s.disk.value.doc) else [])
    case Unread => s.(ram := [])
    case Unfound(save) => Saved(s.(ram := []), save).0
    case LostLoading => s.(ram := [], on := false)
  }

  lemma {:induction false} PutAllInOrder(es: seq<Entry>, doc: seq<Entry>)
    requires WellKept(es + doc)
    ensures PutAll(es, doc) == Some(es + doc)
    decreases |doc|
  {
    if doc == [] {
      assert es + doc == es;
    } else {
      var all := es + doc;
      assert all[|es|] == doc[0] && doc[0] in all;
      FindIs(es, doc[0].key, |es|) by {
        forall k | 0 <= k < |es| ensures es[k].key != doc[0].key { assert all[k].key != all[|es|].key; }
      }
      assert es + [doc[0]] + doc[1..] == all;
      assert es + [Entry(doc[0].key, doc[0].value)] == es + [doc[0]];
      PutAllInOrder(es + [doc[0]], doc[1..]);
    }
  }

  lemma {:induction false} ParsedIs(doc: seq<Entry>)
    requires WellKept(doc)
    ensures Parsed(doc) == doc
  {
    assert [] + doc == doc;
    PutAllInOrder([], doc);
  }

  /** A table saved by one boot and loaded by the next comes back entry for entry. */
  lemma {:induction false} SaveThenLoad(s: Store, next: seq<Entry>)
    requires WellKept(s.ram) && s.on
    ensures var written := Saved(s, Landed).0;
            LoadedStore(written.(ram := next), Loaded).ram == s.ram
  {
    ParsedIs(s.ram);
  }

  /** `PersistentSettings`: a table that is loaded once and written whole on every change. */
  class StateStore {
    const ram: RuntimeState
    const storage: Flash.Storage<seq<Entry>>
    var initialized: bool

    ghost predicate Valid()
      reads this, ram, ram.entries
    {
      ram.Valid()
    }

    ghost function View(): Store
      reads this, ram, ram.entries, storage, storage.flash
      requires Valid()
    {
      Store(Flash.Logical(storage.flash.files, Flash.PhysicalPath(SETTINGS_FILE)), ram.Contents(), storage.flash.on)
    }

    constructor (ram: RuntimeState, storage: Flash.Storage<seq<Entry>>)
      requires ram.Valid()
      ensures this.ram == ram && this.storage == storage && !initialized && Valid()
    {
      this.ram, this.storage, initialized := ram, storage, false;
    }

    method Save() returns (ok: bool, ghost outcome: SaveOutcome)
      requires Valid()
      modifies storage, storage.flash
      ensures Valid() && (View(), ok) == Saved(old(View()), outcome)
      ensures old(storage.mounted) ==> storage.mounted
    {
      ghost var was := View();
      ok := storage.Write(SETTINGS_FILE, ram.entries[..ram.count], true);
      outcome :=
        if storage.flash.on then (if ok then Landed else Refused)
        else if View().disk == was.disk then LostBefore else LostAfter;
      ok := ok && storage.flash.on; // with the power gone nobody hears the answer
    }

    /** Fills an empty table from a document, entry by entry; false when one is refused. */
    method Adopt(doc: seq<Entry>) returns (ok: bool)
      requires Valid() && ram.Contents() == []
      modifies ram, ram.entries
      ensures Valid()
      ensures ok <==> PutAll([], doc).Some?
      ensures ok ==> ram.Contents() == PutAll([], doc).value
    {
      for i := 0 to |doc|
        invariant Valid()
        invariant PutAll([], doc) == PutAll(ram.Contents(), doc[i..])
      {
        assert doc[i..][1..] == doc[i + 1..];
        ok := ram.Set(doc[i].key, doc[i].value);
        if !ok {
          return false;
        }
      }
      ok := true;
    }

    method Load() returns (ok: bool, ghost outcome: LoadOutcome)
      requires Valid() && storage.mounted && ram.Contents() == []
      modifies ram, ram.entries, storage, storage.flash
      ensures Valid()
      ensures ok ==> View() == LoadedStore(old(View()), outcome)
      ensures !ok ==> View().(ram := []) == LoadedStore(old(View()), outcome)
    {
      ghost var was := View();
      outcome := Unread;
      var found := storage.Exists(SETTINGS_FILE);
      if !found {
        ghost var alive := storage.flash.on;
        ram.Clear();
        ghost var save;
        ok, save := Save();
        outcome := if alive || !was.on then Unfound(save) else LostLoading;
        return;
      }
      var readable, content := storage.Read(SETTINGS_FILE);
      if !readable || content.Torn? {
        outcome := if storage.flash.on || !was.on then Unread else LostLoading;
        return false, outcome;
      }
      ok := Adopt(content.doc);
      outcome := Loaded;
    }

    /** Mounts and loads on first use; a load that fails leaves the table empty and the file untouched. */
    method Begin() returns (ok: bool, ghost outcome: LoadOutcome)
      requires Valid() && (!initialized ==> ram.Contents() == [])
      modifies this, ram, ram.entries, storage, storage.flash
      ensures Valid() && ok == initialized && (!ok ==> ram.Contents() == [])
      ensures old(initialized) ==> ok && View() == old(View())
      ensures !old(initialized) && ok ==> View() == LoadedStore(old(View()), outcome)
      ensures !ok ==> View().disk == old(View()).disk
    {
      outcome := Unread;
      if initialized {
        return true, outcome;
      }
      var mounted := storage.Mount();
      if !mounted {
        return false, outcome;
      }
      var loaded;
      loaded, outcome := Load();
      if !loaded {
        ram.Clear();
      }
      initialized, ok := true, true;
    }

    /** Sets a key and saves; a failed save takes the change back. */
    method Set(key: string, value: string) returns (ok: bool, ghost loaded: LoadOutcome, ghost outcome: SaveOutcome)
      requires Valid() && (!initialized ==> ram.Contents() == [])
      modifies this, ram, ram.entries, storage, storage.flash
      ensures Valid() && (!initialized ==> ram.Contents() == []) && (old(initialized) ==> initialized)
      ensures !initialized ==> !ok && View().disk == old(View()).disk
      ensures initialized ==>
        (View(), ok) == WithKey(if old(initialized) then old(View()) else LoadedStore(old(View()), loaded),
                                key, value, outcome)
    {
      outcome := LostBefore;
      var ready;
      ready, loaded := Begin();
      if !ready {
        return false, loaded, outcome;
      }
      ok, outcome := SetAndSave(key, value);
    }

    method SetAndSave(key: string, value: string) returns (ok: bool, ghost outcome: SaveOutcome)
      requires Valid()
      modifies ram, ram.entries, storage, storage.flash
      ensures Valid() && (View(), ok) == WithKey(old(View()), key, value, outcome)
    {
      outcome := LostBefore;
      ghost var was := ram.Contents();
      var at := ram.IndexOf(key);
      var existed := at < ram.count;
      var previous := if existed then ram.entries[at].value else "";
      ok := ram.Set(key, value);
      if !ok {
        return;
      }
      ok, outcome := Save();
      if !ok {
        PutUndone(was, key, value);
        GetAfterPut(was, key, value, key, "");
        var _ := TakeBack(key, existed, previous);
      }
    }

    method TakeBack(key: string, existed: bool, previous: string) returns (ok: bool)
      requires Valid() && Has(ram.Contents(), key)
      modifies ram, ram.entries
      ensures Valid()
      ensures ram.Contents() == if existed then Put(old(ram.Contents()), key, previous) else Drop(old(ram.Contents()), key)
    {
      if existed {
        GetAfterPut(ram.Contents(), key, previous, key, "");
        ok := ram.Set(key, previous);
      } else {
        ok := ram.Remove(key);
      }
    }

    /** Removes a key and saves; a failed save is not taken back. */
    method Remove(key: string) returns (ok: bool, ghost loaded: LoadOutcome, ghost outcome: SaveOutcome)
      requires Valid() && (!initialized ==> ram.Contents() == [])
      modifies this, ram, ram.entries, storage, storage.flash
      ensures Valid() && (!initialized ==> ram.Contents() == []) && (old(initialized) ==> initialized)
      ensures !initialized ==> !ok && View().disk == old(View()).disk
      ensures initialized ==>
        (View(), ok) == WithoutKey(if old(initialized) then old(View()) else LoadedStore(old(View()), loaded),
                                   key, outcome)
    {
      outcome := LostBefore;
      var ready;
      ready, loaded := Begin();
      if !ready {
        return false, loaded, outcome;
      }
      ok := ram.Remove(key);
      if ok {
        ok, outcome := Save();
      }
    }

    /** The value of a key, or nothing when the store has no such key or cannot be used. */
    method Lookup(key: string) returns (value: Option<string>, ghost loaded: LoadOutcome)
      requires Valid() && (!initialized ==> ram.Contents() == [])
      modifies this, ram, ram.entries, storage, storage.flash
      ensures Valid() && (!initialized ==> ram.Contents() == []) && (old(initialized) ==> initialized)
      ensures View().disk == old(View()).disk || (initialized && !old(initialized))
      ensures !initialized ==> value == None
      ensures old(initialized) ==> View() == old(View())
      ensures initialized && !old(initialized) ==> View() == LoadedStore(old(View()), loaded)
      ensures initialized ==> value == if Has(View().ram, key) then Some(Get(View().ram, key, "")) else None
    {
      var ready;
      ready, loaded := Begin();
      if !ready {
        return None, loaded;
      }
      var at := ram.IndexOf(key);
      value := if at < ram.count then Some(ram.entries[at].value) else None;
    }
  }
}
