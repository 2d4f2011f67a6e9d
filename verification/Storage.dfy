/** Files on flash: the tmp/bak/rename protocol of an atomic write, its recovery, and every way it can be cut short. */
module Storage {
  import opened Common

  /** A file holds a whole document, or bytes no reader can make a document of. */
  datatype Content<+D> = Whole(doc: D) | Torn

  /**
   * What the flash makes of the next step: does it, refuses it, or loses power before or after it. The closing of a
   * file can also fail late, with all of it written; any other step that fails late is refused.
   */
  datatype Outcome = Works | Fails | FailsLate | CutBefore | CutAfter

  function Bak(name: string): string { name + ".bak" }

  function Tmp(name: string): string { name + ".tmp" }

  lemma {:induction false} NamesDiffer(name: string)
    ensures Bak(name) != name && Tmp(name) != name && Bak(name) != Tmp(name)
  {
    assert Bak(name)[|name| + 1] != Tmp(name)[|name| + 1];
  }

  /** What a file holds: the file itself if present, else its backup. */
  function Logical<D>(files: map<string, Content<D>>, name: string): Option<Content<D>> {
    if name in files then Some(files[name])
    else if Bak(name) in files then Some(files[Bak(name)])
    else None
  }

  /** Nothing but the named files differs. */
  ghost predicate OnlyTouches<D>(before: map<string, Content<D>>, after: map<string, Content<D>>, names: set<string>) {
    forall other {:trigger other in before} {:trigger other in after} {:trigger before[other]} {:trigger after[other]} ::
      other !in names ==> (other in before <==> other in after) && (other in before ==> before[other] == after[other])
  }

  /** The file, its backup and its temporary. */
  function Trio(name: string): set<string> { {name, Bak(name), Tmp(name)} }

  /** The flash chip. Each step consumes one outcome; with none left, steps work. Once power is cut nothing changes. */
  class Flash<D> {
    var files: map<string, Content<D>>
    var script: seq<Outcome>
    var on: bool

    constructor (files: map<string, Content<D>>, script: seq<Outcome>)
      ensures this.files == files && this.script == script && on
    {
      this.files, this.script, this.on := files, script, true;
    }

    /** Power is on and nothing more goes wrong. */
    predicate Healthy()
      reads this
    {
      on && script == []
    }

    /** Power comes back; what goes wrong from now on is another matter. */
    method PowerUp(script: seq<Outcome>)
      modifies this`script, this`on
      ensures on && this.script == script
    {
      on, this.script := true, script;
    }

    /** Draws the next outcome: whether the step happens, and whether its caller lives to see that it did. */
    method Step() returns (happens: bool, done: bool)
      modifies this`script, this`on
      ensures !old(on) ==> !on && !happens && !done
      ensures old(on) ==> (done <==> on && happens)
      ensures on ==> old(on)
      ensures old(Healthy()) ==> Healthy() && done
    {
      happens, done := false, false;
      if on {
        var outcome := if script == [] then Works else script[0];
        script := if script == [] then [] else script[1..];
        happens := outcome == Works || outcome == CutAfter;
        on := outcome !in {CutBefore, CutAfter};
        done := outcome == Works;
      }
    }

    /** rename(2) of SPIFFS, which refuses a target that exists: no caller may ask for that. */
    method Rename(from: string, to: string) returns (ok: bool)
      requires on ==> to !in files
      modifies this
      ensures on ==> old(on)
      ensures ok ==> on && from in old(files)
      ensures files == old(files) || (from in old(files) && files == old(files)[to := old(files)[from]] - {from})
      ensures on && ok ==> files == old(files)[to := old(files)[from]] - {from}
      ensures on && !ok ==> files == old(files)
      ensures !old(on) ==> files == old(files)
      ensures old(Healthy()) ==> Healthy() && ok == (from in old(files))
    {
      var happens;
      happens, ok := Step();
      ok := ok && from in files;
      if happens && from in files {
        files := files[to := files[from]] - {from};
      }
    }

    method Remove(name: string) returns (ok: bool)
      modifies this
      ensures on ==> old(on)
      ensures ok ==> on && name in old(files)
      ensures files == old(files) || files == old(files) - {name}
      ensures on && ok ==> files == old(files) - {name}
      ensures on && !ok ==> files == old(files)
      ensures !old(on) ==> files == old(files)
      ensures old(Healthy()) ==> Healthy() && ok == (name in old(files))
    {
      var happens;
      happens, ok := Step();
      ok := ok && name in files;
      if happens {
        files := files - {name};
      }
    }

    /** fopen "wb": an empty file where there may have been a full one. */
    method Truncate(name: string) returns (ok: bool)
      modifies this
      ensures on ==> old(on)
      ensures ok ==> on
      ensures files == old(files) || files == old(files)[name := Torn]
      ensures ok ==> files == old(files)[name := Torn]
      ensures on && !ok ==> files == old(files)
      ensures !old(on) ==> files == old(files)
      ensures old(Healthy()) ==> Healthy() && ok
    {
      var happens;
      happens, ok := Step();
      if happens {
        files := files[name := Torn];
      }
    }

    /** fwrite, fflush and fclose of an open file: short of success the file is left torn, or whole all the same. */
    method Fill(name: string, data: D) returns (ok: bool)
      requires on ==> name in files && files[name] == Torn
      modifies this
      ensures on ==> old(on)
      ensures ok ==> on
      ensures files == old(files) || files == old(files)[name := Whole(data)]
      ensures ok ==> files == old(files)[name := Whole(data)]
      ensures !old(on) ==> files == old(files)
      ensures old(Healthy()) ==> Healthy() && ok
    {
      var late := on && script != [] && script[0] == FailsLate;
      var happens;
      happens, ok := Step();
      if happens || late {
        files := files[name := Whole(data)];
      }
    }
  }

  /** The four characters of a step to the parent directory stand at position i. */
  predicate StepsUp(path: string, i: nat) {
    i + 4 <= |path| && path[i] == '/' && path[i + 1] == '.' && path[i + 2] == '.' && path[i + 3] == '/'
  }

  predicate UnderMount(path: string) {
    && path != "" && path[0] == '/'
    && (forall i: nat :: i < |path| ==> !StepsUp(path, i))
    && (|path| >= 3 ==> path[|path| - 3..] != "/..")
  }

  const MOUNT_POINT := "/nm"

  /** The path of a file under the mount point, or empty for a path that could leave it. */
  function PhysicalPath(path: string): (name: string) {
    if UnderMount(path) then MOUNT_POINT + path else ""
  }

  class Storage<D> {
    const flash: Flash<D>
    var mounted: bool

    constructor (flash: Flash<D>)
      ensures this.flash == flash && !mounted
    {
      this.flash, mounted := flash, false;
    }

    /** Registers the file system; a failure leaves it to be tried again. */
    method Mount() returns (ok: bool)
      modifies this, flash
      ensures flash.files == old(flash.files) && (flash.on ==> old(flash.on))
      ensures ok == mounted && (old(mounted) ==> ok) && (ok ==> flash.on == old(flash.on))
      ensures old(flash.Healthy()) ==> flash.Healthy() && ok
    {
      if !mounted {
        var happens;
        happens, mounted := flash.Step();
      }
      ok := mounted;
    }

    /** Puts a backup back in the place of a missing file. */
    method RecoverPrevious(name: string)
      modifies flash
      ensures (flash.on ==> old(flash.on)) && (!old(flash.on) ==> flash.files == old(flash.files))
      ensures Logical(flash.files, name) == old(Logical(flash.files, name))
      ensures OnlyTouches(old(flash.files), flash.files, Trio(name))
      ensures name in old(flash.files) ==> flash.files == old(flash.files)
      ensures Tmp(name) in flash.files <==> Tmp(name) in old(flash.files)
      ensures old(flash.Healthy()) ==>
                flash.Healthy() && (name in flash.files <==> Logical(flash.files, name).Some?)
    {
      NamesDiffer(name);
      if name !in flash.files && Bak(name) in flash.files {
        var _ := flash.Rename(Bak(name), name);
      }
    }

    method Exists(path: string) returns (found: bool)
      modifies this, flash
      ensures (flash.on ==> old(flash.on)) && (!old(flash.on) ==> flash.files == old(flash.files))
      ensures var name := PhysicalPath(path);
              && Logical(flash.files, name) == old(Logical(flash.files, name))
              && OnlyTouches(old(flash.files), flash.files, Trio(name))
              && (found ==> name in flash.files)
      ensures old(mounted) ==> mounted
      ensures old(mounted) && UnderMount(path) ==> (found <==> PhysicalPath(path) in flash.files)
      ensures old(flash.Healthy()) ==>
                flash.Healthy()
                && (found <==> UnderMount(path) && Logical(flash.files, PhysicalPath(path)).Some?)
    {
      var name := PhysicalPath(path);
      var ready := Mount();
      if !ready || name == "" {
        return false;
      }
      RecoverPrevious(name);
      found := name in flash.files;
    }

    method Read(path: string) returns (ok: bool, content: Content<D>)
      modifies this, flash
      ensures (flash.on ==> old(flash.on)) && (!old(flash.on) ==> flash.files == old(flash.files))
      ensures var name := PhysicalPath(path);
              && Logical(flash.files, name) == old(Logical(flash.files, name))
              && OnlyTouches(old(flash.files), flash.files, Trio(name))
              && (ok ==> flash.on && Some(content) == Logical(flash.files, name))
      ensures old(mounted) ==> mounted
      ensures old(flash.Healthy()) ==>
                flash.Healthy() && (ok <==> UnderMount(path) && Logical(flash.files, PhysicalPath(path)).Some?)
    {
      content := Torn;
      var name := PhysicalPath(path);
      var ready := Mount();
      if !ready || name == "" {
        return false, content;
      }
      RecoverPrevious(name);
      if name !in flash.files {
        return false, content;
      }
      var happens;
      happens, ok := flash.Step();
      if ok {
        content := flash.files[name];
      }
    }

    /** Opens, fills and closes one file; a file that could not be filled is removed again if possible. */
    method WriteFile(target: string, data: D) returns (complete: bool)
      modifies flash
      ensures (flash.on ==> old(flash.on)) && (!old(flash.on) ==> flash.files == old(flash.files))
      ensures OnlyTouches(old(flash.files), flash.files, {target})
      ensures complete ==> flash.on && flash.files == old(flash.files)[target := Whole(data)]
      ensures var was, now := old(flash.files), flash.files;
              complete || now == was || target !in now || now[target] in {Torn, Whole(data)}
      ensures old(flash.Healthy()) ==> flash.Healthy() && complete
    {
      complete := flash.Truncate(target);
      if complete {
        complete := flash.Fill(target, data);
        if !complete {
          var _ := flash.Remove(target);
        }
      }
    }

    /** Moves the old file aside, so that the name is free. */
    method SetAside(name: string) returns (ok: bool)
      requires flash.on && name in flash.files
      modifies flash
      ensures Logical(flash.files, name) == old(Logical(flash.files, name))
      ensures OnlyTouches(old(flash.files), flash.files, {name, Bak(name)})
      ensures ok ==> flash.on && name !in flash.files && Bak(name) in flash.files
      ensures old(flash.Healthy()) ==> flash.Healthy() && ok
    {
      NamesDiffer(name);
      ok := true;
      if Bak(name) in flash.files {
        ok := flash.Remove(Bak(name));
      }
      if ok {
        ok := flash.Rename(name, Bak(name));
      }
    }

    /** Makes the finished temporary file the file, keeping the old one as backup until it is. */
    method Replace(name: string, ghost data: D) returns (ok: bool)
      requires flash.on && Tmp(name) in flash.files && flash.files[Tmp(name)] == Whole(data)
      modifies flash
      ensures Logical(flash.files, name) in {old(Logical(flash.files, name)), Some(Whole(data))}
      ensures flash.on ==> Logical(flash.files, name) == if ok then Some(Whole(data)) else old(Logical(flash.files, name))
      ensures OnlyTouches(old(flash.files), flash.files, Trio(name))
      ensures old(flash.Healthy()) ==> flash.Healthy() && ok
    {
      NamesDiffer(name);
      var hadPrevious := name in flash.files;
      if hadPrevious {
        ok := SetAside(name);
        if !ok {
          var _ := flash.Remove(Tmp(name));
          return;
        }
      }
      ok := flash.Rename(Tmp(name), name);
      if !ok {
        if hadPrevious {
          RestoreAside(name, data);
        }
        var _ := flash.Remove(Tmp(name));
        return;
      }
      if hadPrevious {
        var _ := flash.Remove(Bak(name));
      }
    }

    /** After a failed move of the temporary file: the backup goes back, unless power went first. */
    method RestoreAside(name: string, ghost data: D)
      requires flash.on ==> name !in flash.files
      modifies flash
      ensures (flash.on ==> old(flash.on)) && (!old(flash.on) ==> flash.files == old(flash.files))
      ensures Logical(flash.files, name) == old(Logical(flash.files, name))
      ensures OnlyTouches(old(flash.files), flash.files, Trio(name))
    {
      NamesDiffer(name);
      var _ := flash.Rename(Bak(name), name);
    }

    /** A whole write. Atomic: at every cut the file holds all of the old content or all of the new. */
    method Write(path: string, data: D, atomic: bool) returns (ok: bool)
      modifies this, flash
      ensures (flash.on ==> old(flash.on)) && (!old(flash.on) ==> flash.files == old(flash.files))
      ensures var name := PhysicalPath(path); OnlyTouches(old(flash.files), flash.files, Trio(name))
      ensures old(mounted) ==> mounted
      ensures var was, now := old(Logical(flash.files, PhysicalPath(path))), Logical(flash.files, PhysicalPath(path));
              atomic ==> Allowed(was, Wrote(data, if flash.on then Some(ok) else None), now)
      ensures old(flash.Healthy()) ==> flash.Healthy() && (ok <==> UnderMount(path))
      ensures var name := PhysicalPath(path);
              !atomic ==>
                if flash.on && ok then Logical(flash.files, name) == Some(Whole(data))
                else
                  || Logical(flash.files, name) == old(Logical(flash.files, name))
                  || name !in flash.files || flash.files[name] in {Torn, Whole(data)}
    {
      var name := PhysicalPath(path);
      NamesDiffer(name);
      var ready := Mount();
      if !ready || name == "" {
        return false;
      }
      RecoverPrevious(name);
      var target := if atomic then Tmp(name) else name;
      var complete := WriteFile(target, data);
      if !complete {
        return false;
      }
      ok := true;
      if atomic {
        ok := Replace(name, data);
      }
    }

    /** The device starts again. */
    method Reboot(script: seq<Outcome>)
      modifies this, flash
      ensures flash.files == old(flash.files) && flash.on && flash.script == script && !mounted
    {
      mounted := false;
      flash.PowerUp(script);
    }

    /** One action on one file, and what came of it. */
    method Act(path: string, action: Action<D>) returns (event: Event<D>)
      modifies this, flash
      ensures action.Save? ==> event.Wrote? && event.data == action.data
      ensures !action.Save? ==> event.Saw?
      ensures var name := PhysicalPath(path);
              Allowed(old(Logical(flash.files, name)), event, Logical(flash.files, name))
      ensures old(flash.Healthy()) && UnderMount(path) ==>
                && (action.Save? ==> Acknowledged(event))
                && (action.Load? ==> event.content == Logical(flash.files, PhysicalPath(path)))
    {
      match action
      case Save(data) =>
        var ok := Write(path, data, true);
        event := Wrote(data, if flash.on then Some(ok) else None);
      case Load =>
        var ok, content := Read(path);
        event := Saw(if ok then Some(content) else None);
      case Ask =>
        var _ := Exists(path);
        event := Saw(None);
      case Boot(script) =>
        Reboot(script);
        event := Saw(None);
    }

    /**
     * Any sequence of actions on one file, with the steps of the flash refused and its power cut anywhere: a history,
     * and so the file ends with one of the contents saved, none older than the last acknowledged, or as it began.
     */
    method Perform(path: string, actions: seq<Action<D>>)
      returns (events: seq<Event<D>>, ghost contents: seq<Option<Content<D>>>)
      modifies this, flash
      ensures |events| == |actions| && forall k :: 0 <= k < |actions| ==> Answers(actions[k], events[k])
      ensures History(contents, events)
      ensures contents[0] == old(Logical(flash.files, PhysicalPath(path)))
      ensures Survives(contents[0], events, Logical(flash.files, PhysicalPath(path)))
    {
      ghost var name := PhysicalPath(path);
      events, contents := [], [Logical(flash.files, name)];
      for i := 0 to |actions|
        invariant |events| == i && History(contents, events)
        invariant forall k :: 0 <= k < i ==> Answers(actions[k], events[k])
        invariant contents[0] == old(Logical(flash.files, name))
        invariant contents[i] == Logical(flash.files, name)
      {
        var event := Act(path, actions[i]);
        events, contents := events + [event], contents + [Logical(flash.files, name)];
      }
      LastAcknowledgedSurvives(contents, events);
    }
  }

  // ----- any sequence of actions on one file

  /** What is asked of one file over time; power comes back with a boot. */
  datatype Action<+D> = Save(data: D) | Load | Ask | Boot(script: seq<Outcome>)

  /**
   * What came of an action: of a save the answer, if power lasted until there was one; of anything else the content it
   * reported, if it reported one.
   */
  datatype Event<+D> = Wrote(data: D, answer: Option<bool>) | Saw(content: Option<Content<D>>)

  ghost predicate Answers<D>(action: Action<D>, event: Event<D>) {
    match action
    case Save(data) => event.Wrote? && event.data == data
    case _ => event.Saw?
  }

  /** What an action may do to the content of its file. */
  ghost predicate Allowed<D>(before: Option<Content<D>>, event: Event<D>, after: Option<Content<D>>) {
    match event
    case Wrote(data, Some(true)) => after == Some(Whole(data))
    case Wrote(data, Some(false)) => after == before
    case Wrote(data, None) => after == before || after == Some(Whole(data))
    case Saw(content) => after == before && (content.Some? ==> content == after)
  }

  ghost predicate History<D>(contents: seq<Option<Content<D>>>, events: seq<Event<D>>) {
    && |contents| == |events| + 1
    && forall k :: 0 <= k < |events| ==> Allowed(contents[k], events[k], contents[k + 1])
  }

  predicate Acknowledged<D>(event: Event<D>) {
    event.Wrote? && event.answer == Some(true)
  }

  /** Save k is where a content comes from: it was not refused, and no later one was acknowledged. */
  ghost predicate Origin<D>(events: seq<Event<D>>, k: nat, content: Option<Content<D>>) {
    && k < |events| && events[k].Wrote? && content == Some(Whole(events[k].data)) && events[k].answer != Some(false)
    && forall j :: k < j < |events| ==> !Acknowledged(events[j])
  }

  /** One of the contents saved, whole, none older than the last acknowledged; or, if none was, maybe the first. */
  ghost predicate Survives<D>(first: Option<Content<D>>, events: seq<Event<D>>, now: Option<Content<D>>) {
    || (now == first && forall j :: 0 <= j < |events| ==> !Acknowledged(events[j]))
    || exists k: nat :: Origin(events, k, now)
  }

  /** After any history of saves, loads, refusals, power cuts and boots, the last acknowledged content or a newer one. */
  lemma {:induction false} LastAcknowledgedSurvives<D>(contents: seq<Option<Content<D>>>, events: seq<Event<D>>)
    requires History(contents, events)
    ensures Survives(contents[0], events, contents[|events|])
    decreases |events|
  {
    if events != [] {
      var n := |events| - 1;
      var earlier := events[..n];
      LastAcknowledgedSurvives(contents[..n + 1], earlier);
      assert Allowed(contents[n], events[n], contents[n + 1]);
      if events[n].Wrote? && contents[n + 1] == Some(Whole(events[n].data)) && events[n].answer != Some(false) {
        assert Origin(events, n, contents[n + 1]);
      } else if k: nat :| Origin(earlier, k, contents[n]) {
        assert Origin(events, k, contents[n + 1]);
      }
    }
  }

  /** So does every load: what it reports was saved, and nothing was acknowledged between. */
  lemma {:induction false} LoadsReportWhatSurvives<D>(contents: seq<Option<Content<D>>>, events: seq<Event<D>>, k: nat)
    requires History(contents, events) && k < |events|
    requires events[k].Saw? && events[k].content.Some?
    ensures Survives(contents[0], events[..k], events[k].content)
  {
    LastAcknowledgedSurvives(contents[..k + 1], events[..k]);
    assert Allowed(contents[k], events[k], contents[k + 1]);
  }
}
