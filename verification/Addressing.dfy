/** Addresses in a validated profile: looking a path up and expanding the profile into a graph agree on what is where. */
module Addressing {
  import opened Common
  import opened HardwareProfile
  import opened DefinitionCycles
  import opened Expansion
  import opened HardwareValidation

  // ----- places: which root, then which child at each level

  /** The assembly at a place. */
  function At(c: Profile, place: seq<nat>): Option<View> {
    if place == [] then None
    else
      var last := place[|place| - 1];
      if |place| == 1 then if last < |c.roots| then Some(Seen(c, c.roots[last])) else None
      else
        var above := At(c, place[..|place| - 1]);
        if above.Some? && last < ChildCount(above.value) then Some(ChildAt(c, above.value, last)) else None
  }

  /** Its path, as the expansion builds it on the way down. */
  function PathAt(c: Profile, place: seq<nat>): string
    requires At(c, place).Some?
  {
    var id := At(c, place).value.instance.id;
    if |place| == 1 then Text(id) else JoinedPath(PathAt(c, place[..|place| - 1]), id)
  }

  /** One level further down, at child `k`. */
  function Below(place: seq<nat>, k: nat): (below: seq<nat>)
    ensures |below| == |place| + 1 && below[..|place|] == place && below[|place|] == k
  {
    seq(|place| + 1, i requires 0 <= i <= |place| => if i < |place| then place[i] else k)
  }

  /** References below a checked view resolve, its own and its definition's shapes are right. */
  ghost predicate Checked(c: Profile, v: View, depth: nat) {
    && v == Seen(c, v.instance) && InstanceOk(c, v.instance, depth)
    && exists d: nat :: ShapeOk(v.instance.members, d)
  }

  ghost predicate Validated(c: Profile) {
    WellShaped(c) && InstancesResolve(c)
  }

  lemma {:induction false} DefinitionShaped(c: Profile, d: HardwareDefinition)
    requires WellShaped(c) && d in c.definitions
    ensures ShapeOk(d.members, 0)
  {
    var i :| 0 <= i < |c.definitions| && c.definitions[i] == d;
  }

  lemma {:induction false} InstanceSpreads(c: Profile, v: View, depth: nat)
    requires v == Seen(c, v.instance) && InstanceOk(c, v.instance, depth)
    ensures depth <= MAX_GRAPH_ENDPOINTS
    ensures InstancesOk(c, DefinedChildren(v), depth) && InstancesOk(c, v.instance.members.assemblies, depth)
    ensures v.definition.Some? ==> AddsTo(v.instance.members, v.definition.value.members)
  {
  }

  lemma {:induction false} ChildIsChecked(c: Profile, v: View, depth: nat, k: nat)
    requires Validated(c) && Checked(c, v, depth) && k < ChildCount(v)
    ensures Checked(c, ChildAt(c, v, k), depth + 1) && ValidId(ChildAt(c, v, k).instance.id)
  {
    var defined := DefinedChildren(v);
    InstanceSpreads(c, v, depth);
    if k < |defined| {
      var m := v.definition.value.members;
      DefinitionShaped(c, v.definition.value);
      assert ChildShapeOk(m.assemblies[k], 0);
      assert IdOk(AssemblyIds(m.assemblies), k);
      assert ShapeOk(m.assemblies[k].members, 1);
    } else {
      var d: nat :| ShapeOk(v.instance.members, d);
      var i := k - |defined|;
      assert ChildShapeOk(v.instance.members.assemblies[i], d);
      assert IdOk(AssemblyIds(v.instance.members.assemblies), i);
      assert ShapeOk(v.instance.members.assemblies[i].members, d + 1);
    }
  }

  /** Siblings have different ids, whether inline or from the definition. */
  lemma {:induction false} SiblingsDiffer(c: Profile, v: View, depth: nat, i: nat, j: nat)
    requires Validated(c) && Checked(c, v, depth) && i < j < ChildCount(v)
    ensures ChildAt(c, v, i).instance.id != ChildAt(c, v, j).instance.id
  {
    var defined, inner, n := DefinedChildren(v), v.instance.members.assemblies, |DefinedChildren(v)|;
    ChildIsChecked(c, v, depth, i);
    if j < n {
      DefinitionShaped(c, v.definition.value);
      assert IdOk(AssemblyIds(defined), j);
      assert !Repeats(AssemblyIds(defined)[i], AssemblyIds(defined)[j]);
    } else if i >= n {
      var d: nat :| ShapeOk(v.instance.members, d);
      assert IdOk(AssemblyIds(inner), j - n);
      assert !Repeats(AssemblyIds(inner)[i - n], AssemblyIds(inner)[j - n]);
    } else {
      InstanceSpreads(c, v, depth);
      assert AssemblyIds(inner)[j - n] !in AssemblyIds(defined);
      assert AssemblyIds(defined)[i] in AssemblyIds(defined);
    }
  }

  lemma {:induction false} RootIsChecked(c: Profile, i: nat)
    requires Validated(c) && i < |c.roots|
    ensures Checked(c, Seen(c, c.roots[i]), 0) && ValidId(c.roots[i].id)
  {
    assert IdOk(AssemblyIds(c.roots), i);
    assert ShapeOk(c.roots[i].members, 0);
  }

  lemma {:induction false} PlacesAreChecked(c: Profile, place: seq<nat>)
    requires Validated(c) && At(c, place).Some?
    ensures Checked(c, At(c, place).value, |place| - 1) && ValidId(At(c, place).value.instance.id)
    ensures PathAt(c, place) != ""
    decreases |place|
  {
    if |place| == 1 {
      RootIsChecked(c, place[0]);
    } else {
      var above := place[..|place| - 1];
      PlacesAreChecked(c, above);
      ChildIsChecked(c, At(c, above).value, |place| - 2, place[|place| - 1]);
    }
  }

  // ----- looking a path up finds the place it was built for

  lemma {:induction false} NoSlash(id: string)
    requires ValidIdText(id)
    ensures '/' !in id
  {
  }

  lemma {:induction false} ChildIsFound(c: Profile, v: View, depth: nat, k: nat, from: nat)
    requires Validated(c) && Checked(c, v, depth) && from <= k < ChildCount(v)
    ensures FindChild(c, v, Text(ChildAt(c, v, k).instance.id), from) == Some(ChildAt(c, v, k))
    decreases k - from
  {
    ChildIsChecked(c, v, depth, k);
    if from < k {
      SiblingsDiffer(c, v, depth, from, k);
      ChildIsFound(c, v, depth, k, from + 1);
    }
  }

  lemma {:induction false} RootIsFound(c: Profile, k: nat, from: nat)
    requires Validated(c) && from <= k < |c.roots|
    ensures FindRoot(c, Text(c.roots[k].id), from) == Some(Seen(c, c.roots[k]))
    decreases k - from
  {
    RootIsChecked(c, k);
    if from < k {
      RootsDiffer(c, from, k);
      RootIsFound(c, k, from + 1);
    }
  }

  lemma {:induction false} SlashlessLevel(id: string)
    requires '/' !in id
    ensures FirstLevel(id) == (id, None)
  {
  }

  /** The first level of a longer path is that of the shorter one. */
  lemma {:induction false} LongerFirstLevel(path: string, id: string)
    requires '/' !in id
    ensures var (first, deeper) := FirstLevel(path);
            FirstLevel(path + "/" + id) == (first, Some(if deeper.Some? then deeper.value + "/" + id else id))
  {
    var k := IndexFrom(path, '/', 0);
    var longer, prefix := path + "/" + id, path[..k];
    assert prefix == path[0..k];
    var rest := if k == |path| then id else path[k + 1..] + "/" + id;
    IndexAfter(prefix, '/', rest);
    assert longer == prefix + ['/'] + rest by {
      if k < |path| {
        assert path == prefix + ['/'] + path[k + 1..];
      }
    }
    assert IndexFrom(longer, '/', 0) == k;
    assert longer[..k] == prefix && longer[k + 1..] == rest;
    assert k == |path| ==> prefix == path;
  }

  /** One level more is one child further down. */
  lemma {:induction false} FindDeeper(c: Profile, v: View, rest: string, id: string)
    requires '/' !in id
    ensures FindBelow(c, v, Some(rest + "/" + id)) ==
            if FindBelow(c, v, Some(rest)).None? then None else FindChild(c, FindBelow(c, v, Some(rest)).value, id, 0)
    decreases |rest|
  {
    LongerFirstLevel(rest, id);
    var (first, deeper) := FirstLevel(rest);
    var child := FindChild(c, v, first, 0);
    if child.Some? {
      if deeper.Some? {
        FindDeeper(c, child.value, deeper.value, id);
      } else {
        OnlyChild(c, child.value, id);
      }
    }
  }

  lemma {:induction false} OnlyChild(c: Profile, v: View, id: string)
    requires '/' !in id
    ensures FindBelow(c, v, Some(id)) == FindChild(c, v, id, 0)
  {
    SlashlessLevel(id);
  }

  lemma {:induction false} FindFurther(c: Profile, path: string, id: string)
    requires '/' !in id && path != ""
    ensures FindAssembly(c, path + "/" + id) ==
            if FindAssembly(c, path).None? then None else FindChild(c, FindAssembly(c, path).value, id, 0)
  {
    LongerFirstLevel(path, id);
    var (first, deeper) := FirstLevel(path);
    var root := FindRoot(c, first, 0);
    if root.Some? {
      if deeper.Some? {
        FindDeeper(c, root.value, deeper.value, id);
      } else {
        OnlyChild(c, root.value, id);
      }
    }
  }

  lemma {:induction false} PathSplits(c: Profile, place: seq<nat>)
    requires Validated(c) && At(c, place).Some?
    ensures var id := At(c, place).value.instance.id;
            && id.Some? && '/' !in id.value
            && (|place| == 1 ==> PathAt(c, place) == id.value)
            && (|place| > 1 ==> PathAt(c, place) == PathAt(c, place[..|place| - 1]) + "/" + id.value)
    ensures PathAt(c, place) != "" && ('/' in PathAt(c, place) <==> |place| > 1)
  {
    PlacesAreChecked(c, place);
    NoSlash(At(c, place).value.instance.id.value);
    if |place| > 1 {
      var above := PathAt(c, place[..|place| - 1]);
      PlacesAreChecked(c, place[..|place| - 1]);
      assert (above + "/")[|above|] == '/';
      assert PathAt(c, place)[|above|] == '/';
    }
  }

  /** Looking up the path of a place finds what is there. */
  lemma {:induction false} PathLeadsToPlace(c: Profile, place: seq<nat>)
    requires Validated(c) && At(c, place).Some?
    ensures FindAssembly(c, PathAt(c, place)) == At(c, place)
    decreases |place|
  {
    PathSplits(c, place);
    if |place| == 1 {
      SlashlessLevel(PathAt(c, place));
      RootIsFound(c, place[0], 0);
    } else {
      var above := place[..|place| - 1];
      PathLeadsToPlace(c, above);
      PlacesAreChecked(c, above);
      FindFurther(c, PathAt(c, above), At(c, place).value.instance.id.value);
      ChildIsFound(c, At(c, above).value, |place| - 2, place[|place| - 1], 0);
    }
  }

  lemma {:induction false} SameLastLevel(a: string, x: string, b: string, y: string)
    requires a + "/" + x == b + "/" + y && '/' !in x && '/' !in y
    ensures a == b && x == y
  {
    var s, t := a + "/" + x, b + "/" + y;
    assert s[|a|] == '/' && t[|b|] == '/';
    assert forall k :: |a| < k < |s| ==> s[k] == x[k - |a| - 1];
    assert forall k :: |b| < k < |t| ==> t[k] == y[k - |b| - 1];
    assert a == s[..|a|] && b == t[..|b|];
    assert x == s[|a| + 1..] && y == t[|b| + 1..];
  }

  /** Equal paths of two levels or more agree above the last level, and on it. */
  lemma {:induction false} SameAboveAndLast(c: Profile, one: seq<nat>, other: seq<nat>)
    requires Validated(c) && At(c, one).Some? && At(c, other).Some? && PathAt(c, one) == PathAt(c, other)
    requires |one| > 1 && |other| > 1
    ensures PathAt(c, one[..|one| - 1]) == PathAt(c, other[..|other| - 1])
    ensures At(c, one).value.instance.id == At(c, other).value.instance.id
  {
    PathSplits(c, one);
    PathSplits(c, other);
    SameLastLevel(PathAt(c, one[..|one| - 1]), At(c, one).value.instance.id.value,
                  PathAt(c, other[..|other| - 1]), At(c, other).value.instance.id.value);
  }

  lemma {:induction false} SamePlaceBelow(c: Profile, one: seq<nat>, other: seq<nat>)
    requires Validated(c) && At(c, one).Some? && At(c, other).Some? && |one| > 1 && |other| > 1
    requires one[..|one| - 1] == other[..|other| - 1]
    requires At(c, one).value.instance.id == At(c, other).value.instance.id
    ensures one == other
  {
    var above := one[..|one| - 1];
    SameChild(c, above, one[|one| - 1], other[|other| - 1]);
    assert one == above + [one[|one| - 1]] && other == above + [other[|other| - 1]];
  }

  /** No two assemblies of a validated profile share a path. */
  lemma {:induction false} PlacesHaveOwnPaths(c: Profile, one: seq<nat>, other: seq<nat>)
    requires Validated(c) && At(c, one).Some? && At(c, other).Some? && PathAt(c, one) == PathAt(c, other)
    ensures one == other
    decreases |one|
  {
    PathSplits(c, one);
    PathSplits(c, other);
    if |one| == 1 {
      SameRoot(c, one[0], other[0]);
      assert one == [one[0]] && other == [other[0]];
    } else {
      SameAboveAndLast(c, one, other);
      PlacesHaveOwnPaths(c, one[..|one| - 1], other[..|other| - 1]);
      SamePlaceBelow(c, one, other);
    }
  }

  lemma {:induction false} SameRoot(c: Profile, i: nat, j: nat)
    requires Validated(c) && i < |c.roots| && j < |c.roots| && c.roots[i].id == c.roots[j].id
    ensures i == j
  {
    if i < j {
      RootsDiffer(c, i, j);
    } else if j < i {
      RootsDiffer(c, j, i);
    }
  }

  lemma {:induction false} SameChild(c: Profile, above: seq<nat>, i: nat, j: nat)
    requires Validated(c) && At(c, above).Some?
    requires i < ChildCount(At(c, above).value) && j < ChildCount(At(c, above).value)
    requires ChildAt(c, At(c, above).value, i).instance.id == ChildAt(c, At(c, above).value, j).instance.id
    ensures i == j
  {
    PlacesAreChecked(c, above);
    if i < j {
      SiblingsDiffer(c, At(c, above).value, |above| - 1, i, j);
    } else if j < i {
      SiblingsDiffer(c, At(c, above).value, |above| - 1, j, i);
    }
  }

  lemma {:induction false} RootsDiffer(c: Profile, i: nat, j: nat)
    requires Validated(c) && i < j < |c.roots|
    ensures c.roots[i].id != c.roots[j].id
  {
    var ids := AssemblyIds(c.roots);
    assert IdOk(ids, i) && IdOk(ids, j);
    assert !Repeats(ids[i], ids[j]);
  }

  // ----- and nothing else is found

  lemma {:induction false} ChildFoundAt(c: Profile, v: View, id: string, from: nat) returns (k: nat)
    requires from <= ChildCount(v) && FindChild(c, v, id, from).Some?
    ensures k < ChildCount(v) && FindChild(c, v, id, from) == Some(ChildAt(c, v, k)) && ChildAt(c, v, k).instance.id == Some(id)
    decreases ChildCount(v) - from
  {
    if ChildAt(c, v, from).instance.id == Some(id) {
      k := from;
    } else {
      k := ChildFoundAt(c, v, id, from + 1);
    }
  }

  lemma {:induction false} RootFoundAt(c: Profile, id: string, from: nat) returns (k: nat)
    requires from <= |c.roots| && FindRoot(c, id, from).Some?
    ensures k < |c.roots| && FindRoot(c, id, from) == Some(Seen(c, c.roots[k])) && c.roots[k].id == Some(id)
    decreases |c.roots| - from
  {
    if c.roots[from].id == Some(id) {
      k := from;
    } else {
      k := RootFoundAt(c, id, from + 1);
    }
  }

  lemma {:induction false} PlaceBelow(c: Profile, place: seq<nat>, k: nat)
    requires At(c, place).Some? && k < ChildCount(At(c, place).value)
    ensures At(c, Below(place, k)) == Some(ChildAt(c, At(c, place).value, k))
    ensures PathAt(c, Below(place, k)) == JoinedPath(PathAt(c, place), ChildAt(c, At(c, place).value, k).instance.id)
  {
    assert Below(place, k)[..|place|] == place;
  }

  lemma {:induction false} LevelsBack(path: string)
    ensures var (first, deeper) := FirstLevel(path);
            path == if deeper.Some? then first + "/" + deeper.value else first
  {
    var k := IndexFrom(path, '/', 0);
    if k < |path| {
      assert path == path[..k] + [path[k]] + path[k + 1..];
    }
  }

  /** A child found by its id is one place further down. */
  lemma {:induction false} FoundOneBelow(c: Profile, place: seq<nat>, id: string) returns (found: seq<nat>)
    requires Validated(c) && At(c, place).Some? && FindChild(c, At(c, place).value, id, 0).Some?
    ensures At(c, found) == FindChild(c, At(c, place).value, id, 0)
    ensures PathAt(c, found) == PathAt(c, place) + "/" + id
  {
    var k := ChildFoundAt(c, At(c, place).value, id, 0);
    PlaceBelow(c, place, k);
    found := Below(place, k);
    PathSplits(c, found);
    assert found[..|found| - 1] == place;
  }

  lemma {:induction false} FoundBelow(c: Profile, place: seq<nat>, rest: Option<string>) returns (found: seq<nat>)
    requires Validated(c) && At(c, place).Some? && FindBelow(c, At(c, place).value, rest).Some?
    ensures At(c, found) == FindBelow(c, At(c, place).value, rest)
    ensures PathAt(c, found) == if rest.Some? then PathAt(c, place) + "/" + rest.value else PathAt(c, place)
    decreases if rest.Some? then |rest.value| + 1 else 0
  {
    found := place;
    if rest.Some? {
      var (id, deeper) := FirstLevel(rest.value);
      var below := FoundOneBelow(c, place, id);
      found := FoundBelow(c, below, deeper);
      LevelsBack(rest.value);
      JoinedInTurn(PathAt(c, place), id, deeper);
    }
  }

  lemma {:induction false} JoinedInTurn(path: string, id: string, deeper: Option<string>)
    ensures deeper.Some? ==> path + "/" + id + "/" + deeper.value == path + "/" + (id + "/" + deeper.value)
  {
  }

  /** Whatever a path finds is at a place with that path. */
  lemma {:induction false} FoundIsPlaced(c: Profile, path: string) returns (place: seq<nat>)
    requires Validated(c) && FindAssembly(c, path).Some?
    ensures At(c, place) == FindAssembly(c, path) && PathAt(c, place) == path
  {
    var (id, deeper) := FirstLevel(path);
    LevelsBack(path);
    var k := RootFoundAt(c, id, 0);
    place := FoundBelow(c, [k], deeper);
  }

  lemma {:induction false} PlacesAbove(c: Profile, place: seq<nat>, n: nat)
    requires At(c, place).Some? && 0 < n <= |place|
    ensures At(c, place[..n]).Some?
    ensures n < |place| ==> place[n] < ChildCount(At(c, place[..n]).value)
    decreases |place|
  {
    if n < |place| {
      var above := place[..|place| - 1];
      assert above[..n] == place[..n];
      PlacesAbove(c, above, n);
    } else {
      assert place[..n] == place;
    }
  }

  /** No place is deeper than the expansion goes. */
  ghost predicate Shallow(c: Profile) {
    forall place: seq<nat> {:trigger At(c, place)} :: At(c, place).Some? ==> |place| <= MAX_GRAPH_ENDPOINTS + 1
  }

  lemma {:induction false} ValidatedIsShallow(c: Profile)
    requires Validated(c)
    ensures Shallow(c)
  {
    forall place: seq<nat> | At(c, place).Some? ensures |place| <= MAX_GRAPH_ENDPOINTS + 1 {
      PlacesAreChecked(c, place);
      InstanceSpreads(c, At(c, place).value, |place| - 1);
    }
  }

  // ----- what holds of an assembly or of one below it

  /** Of an assembly seen under a path. */
  type Property = (View, string) -> bool

  /** The property holds of this assembly, or of one below it that is not too deep. */
  ghost predicate Somewhere(c: Profile, v: View, path: string, depth: nat, p: Property)
    decreases MAX_GRAPH_ENDPOINTS + 1 - depth, ChildCount(v) + 2
  {
    depth <= MAX_GRAPH_ENDPOINTS && (p(v, path) || AmongChildren(c, v, path, depth, ChildCount(v), p))
  }

  ghost predicate AmongChildren(c: Profile, v: View, path: string, depth: nat, n: nat, p: Property)
    requires n <= ChildCount(v) && depth <= MAX_GRAPH_ENDPOINTS
    decreases MAX_GRAPH_ENDPOINTS + 1 - depth, n + 1
  {
    exists k :: 0 <= k < n && InChild(c, v, path, depth, k, p)
  }

  ghost predicate InChild(c: Profile, v: View, path: string, depth: nat, k: nat, p: Property)
    requires k < ChildCount(v) && depth <= MAX_GRAPH_ENDPOINTS
    decreases MAX_GRAPH_ENDPOINTS + 1 - depth, k
  {
    Somewhere(c, ChildAt(c, v, k), JoinedPath(path, ChildAt(c, v, k).instance.id), depth + 1, p)
  }

  ghost predicate InRoot(c: Profile, i: nat, p: Property)
    requires i < |c.roots|
  {
    Somewhere(c, Seen(c, c.roots[i]), Text(c.roots[i].id), 0, p)
  }

  ghost predicate HoldsAt(c: Profile, place: seq<nat>, p: Property) {
    At(c, place).Some? && p(At(c, place).value, PathAt(c, place))
  }

  /** The property holds at this place or at one below it. */
  ghost predicate HoldsFrom(c: Profile, place: seq<nat>, p: Property) {
    At(c, place).Some? && Somewhere(c, At(c, place).value, PathAt(c, place), |place| - 1, p)
  }

  lemma {:induction false} SomewhereIsPlace(c: Profile, place: seq<nat>, p: Property) returns (owner: seq<nat>)
    requires HoldsFrom(c, place, p)
    ensures HoldsAt(c, owner, p)
    decreases MAX_GRAPH_ENDPOINTS + 2 - |place|
  {
    var v, path, depth: nat := At(c, place).value, PathAt(c, place), |place| - 1;
    if p(v, path) {
      owner := place;
    } else {
      assert AmongChildren(c, v, path, depth, ChildCount(v), p);
      var k :| 0 <= k < ChildCount(v) && InChild(c, v, path, depth, k, p);
      PlaceBelow(c, place, k);
      owner := SomewhereIsPlace(c, Below(place, k), p);
    }
  }

  lemma {:induction false} OneLevelUp(c: Profile, place: seq<nat>, p: Property)
    requires 1 < |place| <= MAX_GRAPH_ENDPOINTS + 2 && HoldsFrom(c, place, p)
    ensures HoldsFrom(c, place[..|place| - 1], p)
  {
    var above, k := place[..|place| - 1], place[|place| - 1];
    assert InChild(c, At(c, above).value, PathAt(c, above), |above| - 1, k, p);
  }

  lemma {:induction false} PlaceIsSomewhere(c: Profile, owner: seq<nat>, n: nat, p: Property)
    requires Shallow(c) && HoldsAt(c, owner, p) && 0 < n <= |owner|
    ensures HoldsFrom(c, owner[..n], p)
    decreases |owner| - n
  {
    if n == |owner| {
      assert owner[..n] == owner;
    } else {
      PlaceIsSomewhere(c, owner, n + 1, p);
      OneLevelUp(c, owner[..n + 1], p);
      assert owner[..n + 1][..n] == owner[..n];
    }
  }

  predicate FoundWith(c: Profile, path: string, p: Property) {
    FindAssembly(c, path).Some? && p(FindAssembly(c, path).value, path)
  }

  lemma {:induction false} SomewhereIsFound(c: Profile, i: nat, p: Property) returns (path: string)
    requires Validated(c) && i < |c.roots| && InRoot(c, i, p)
    ensures FoundWith(c, path, p)
  {
    var owner := SomewhereIsPlace(c, [i], p);
    PathLeadsToPlace(c, owner);
    path := PathAt(c, owner);
  }

  lemma {:induction false} FoundIsSomewhere(c: Profile, path: string, p: Property) returns (i: nat)
    requires Validated(c) && FoundWith(c, path, p)
    ensures i < |c.roots| && InRoot(c, i, p)
  {
    ValidatedIsShallow(c);
    var owner := FoundIsPlaced(c, path);
    PlacesAbove(c, owner, 1);
    i := owner[0];
    PlaceIsSomewhere(c, owner, 1, p);
    assert owner[..1] == [i];
  }

  /** Going through all assemblies and looking paths up meet the same ones, under the same paths. */
  lemma {:induction false} SomewhereIffFound(c: Profile, p: Property)
    requires Validated(c)
    ensures (exists i :: 0 <= i < |c.roots| && InRoot(c, i, p)) <==> exists path :: FoundWith(c, path, p)
  {
    if i :| 0 <= i < |c.roots| && InRoot(c, i, p) {
      var path := SomewhereIsFound(c, i, p);
    }
    if path :| FoundWith(c, path, p) {
      var i := FoundIsSomewhere(c, path, p);
    }
  }

  // ----- what an assembly offers, and what the expansion adds for it

  predicate HasPin(pins: seq<Pin>, e: Endpoint) {
    exists p :: p in pins && p.id == e.key.id && p.canonicalNet == e.net
  }

  predicate HasTerminal(devices: seq<Device>, e: Endpoint) {
    e.key.kind == DEVICE_TERMINAL && exists d :: d in devices && d.id == e.key.owner && HasPin(d.terminals, e)
  }

  predicate HasContact(connectors: seq<Connector>, e: Endpoint) {
    e.key.kind == CONNECTOR_CONTACT && exists k :: k in connectors && k.id == e.key.owner && HasPin(k.contacts, e)
  }

  predicate Declares(m: Members, e: Endpoint) {
    HasTerminal(m.devices, e) || HasContact(m.connectors, e)
  }

  /** The endpoint is a pin of this assembly, its own or its definition's. */
  predicate Offers(v: View, e: Endpoint) {
    (v.definition.Some? && Declares(v.definition.value.members, e)) || Declares(v.instance.members, e)
  }

  lemma {:induction false} PinsAdded(s: Layout, path: string, kind: uint8, owner: CStr, pins: seq<Pin>, n: nat, e: Endpoint)
    requires n <= |pins|
    ensures e in WithPins(s, path, kind, owner, pins, n).endpoints <==>
            e in s.endpoints || (e.key.path == path && e.key.kind == kind && e.key.owner == owner && HasPin(pins[..n], e))
  {
    if n > 0 {
      PinsAdded(s, path, kind, owner, pins, n - 1, e);
      assert pins[..n] == pins[..n - 1] + [pins[n - 1]];
    }
  }

  lemma {:induction false} DevicesAdded(s: Layout, path: string, devices: seq<Device>, n: nat, e: Endpoint)
    requires n <= |devices|
    ensures e in WithDevices(s, path, devices, n).endpoints <==>
            e in s.endpoints || (e.key.path == path && HasTerminal(devices[..n], e))
  {
    if n > 0 {
      var d := devices[n - 1];
      DevicesAdded(s, path, devices, n - 1, e);
      PinsAdded(WithDevices(s, path, devices, n - 1), path, DEVICE_TERMINAL, d.id, d.terminals, |d.terminals|, e);
      assert d.terminals[..|d.terminals|] == d.terminals;
      assert devices[..n] == devices[..n - 1] + [d];
    }
  }

  lemma {:induction false} ConnectorsAdded(s: Layout, path: string, connectors: seq<Connector>, n: nat, e: Endpoint)
    requires n <= |connectors|
    ensures e in WithConnectors(s, path, connectors, n).endpoints <==>
            e in s.endpoints || (e.key.path == path && HasContact(connectors[..n], e))
  {
    if n > 0 {
      var k := connectors[n - 1];
      ConnectorsAdded(s, path, connectors, n - 1, e);
      PinsAdded(WithConnectors(s, path, connectors, n - 1), path, CONNECTOR_CONTACT, k.id, k.contacts, |k.contacts|, e);
      assert k.contacts[..|k.contacts|] == k.contacts;
      assert connectors[..n] == connectors[..n - 1] + [k];
    }
  }

  lemma {:induction false} MembersAdded(s: Layout, path: string, m: Members, e: Endpoint)
    ensures e in WithMembers(s, path, m).endpoints <==> e in s.endpoints || (e.key.path == path && Declares(m, e))
  {
    DevicesAdded(s, path, m.devices, |m.devices|, e);
    ConnectorsAdded(WithDevices(s, path, m.devices, |m.devices|), path, m.connectors, |m.connectors|, e);
    assert m.devices[..|m.devices|] == m.devices && m.connectors[..|m.connectors|] == m.connectors;
  }

  /** One assembly of the expansion, or one endpoint of it. */
  datatype Item = AssemblyPath(path: string) | EndpointItem(e: Endpoint)

  predicate Shown(s: Layout, item: Item) {
    match item
    case AssemblyPath(path) => path in s.paths
    case EndpointItem(e) => e in s.endpoints
  }

  predicate IsOf(v: View, path: string, item: Item) {
    match item
    case AssemblyPath(p) => p == path
    case EndpointItem(e) => e.key.path == path && Offers(v, e)
  }

  lemma {:induction false} AssemblyAdded(s: Layout, path: string, v: View, item: Item)
    ensures Shown(WithAssembly(s, path, v), item) <==> Shown(s, item) || IsOf(v, path, item)
  {
    if item.EndpointItem? {
      var t := WithPath(s, path);
      if v.definition.Some? {
        MembersAdded(t, path, v.definition.value.members, item.e);
      }
      MembersAdded(WithDefinition(t, path, v), path, v.instance.members, item.e);
    }
  }

  function Is(item: Item): Property {
    (v, path) => IsOf(v, path, item)
  }

  lemma {:induction false} LaidOutAdds(c: Profile, v: View, path: string, depth: nat, s: Layout, item: Item)
    ensures Shown(LaidOut(c, v, path, depth, s), item) <==> Shown(s, item) || Somewhere(c, v, path, depth, Is(item))
    decreases MAX_GRAPH_ENDPOINTS + 1 - depth, ChildCount(v) + 1
  {
    if depth <= MAX_GRAPH_ENDPOINTS {
      AssemblyAdded(s, path, v, item);
      assert Is(item)(v, path) <==> IsOf(v, path, item);
      ChildrenAdd(c, v, path, depth, WithAssembly(s, path, v), ChildCount(v), item);
    }
  }

  lemma {:induction false} ChildrenAdd(c: Profile, v: View, path: string, depth: nat, s: Layout, n: nat, item: Item)
    requires n <= ChildCount(v) && depth <= MAX_GRAPH_ENDPOINTS
    ensures Shown(WithChildren(c, v, path, depth, s, n), item) <==>
            Shown(s, item) || AmongChildren(c, v, path, depth, n, Is(item))
    decreases MAX_GRAPH_ENDPOINTS + 1 - depth, n
  {
    if n > 0 {
      ChildrenAdd(c, v, path, depth, s, n - 1, item);
      ChildAdds(c, v, path, depth, WithChildren(c, v, path, depth, s, n - 1), n - 1, item);
    }
  }

  lemma {:induction false} ChildAdds(c: Profile, v: View, path: string, depth: nat, s: Layout, k: nat, item: Item)
    requires k < ChildCount(v) && depth <= MAX_GRAPH_ENDPOINTS
    ensures var child := ChildAt(c, v, k);
            Shown(LaidOut(c, child, JoinedPath(path, child.instance.id), depth + 1, s), item) <==>
            Shown(s, item) || InChild(c, v, path, depth, k, Is(item))
    decreases MAX_GRAPH_ENDPOINTS + 1 - depth, 0
  {
    var child := ChildAt(c, v, k);
    LaidOutAdds(c, child, JoinedPath(path, child.instance.id), depth + 1, s, item);
  }

  /** Laying out root i adds the item to any layout, or to none. */
  ghost predicate RootAdds(c: Profile, i: nat, item: Item, adds: bool)
    requires i < |c.roots|
  {
    forall s: Layout {:trigger LaidOut(c, Seen(c, c.roots[i]), Text(c.roots[i].id), 0, s)} ::
      Shown(LaidOut(c, Seen(c, c.roots[i]), Text(c.roots[i].id), 0, s), item) <==> Shown(s, item) || adds
  }

  lemma {:induction false} RootsAdd(c: Profile, n: nat, item: Item, adds: seq<bool>)
    requires n <= |c.roots| == |adds| && forall i :: 0 <= i < |adds| ==> RootAdds(c, i, item, adds[i])
    ensures Shown(RootsLaidOut(c, n), item) <==> exists i :: 0 <= i < n && adds[i]
  {
    if n > 0 {
      RootsAdd(c, n - 1, item, adds);
      assert RootAdds(c, n - 1, item, adds[n - 1]);
    }
  }

  lemma {:induction false} ShownIsInRoot(c: Profile, item: Item)
    ensures Shown(LayoutOf(c), item) <==> exists i :: 0 <= i < |c.roots| && InRoot(c, i, Is(item))
  {
    var adds := seq(|c.roots|, i requires 0 <= i < |c.roots| => InRoot(c, i, Is(item)));
    forall i | 0 <= i < |adds| ensures RootAdds(c, i, item, adds[i]) {
      forall s: Layout
        ensures Shown(LaidOut(c, Seen(c, c.roots[i]), Text(c.roots[i].id), 0, s), item) <==> Shown(s, item) || adds[i]
      {
        LaidOutAdds(c, Seen(c, c.roots[i]), Text(c.roots[i].id), 0, s, item);
      }
    }
    RootsAdd(c, |c.roots|, item, adds);
    assert forall i :: 0 <= i < |c.roots| ==> adds[i] == InRoot(c, i, Is(item));
  }

  // ----- the two ways of finding things agree

  function Address(item: Item): string {
    match item case AssemblyPath(path) => path case EndpointItem(e) => e.key.path
  }

  /** The item is what following its address through the profile finds. */
  predicate Found(c: Profile, item: Item) {
    FindAssembly(c, Address(item)).Some? && IsOf(FindAssembly(c, Address(item)).value, Address(item), item)
  }

  /** Expanding the profile shows an assembly or endpoint exactly when looking up its address finds it. */
  lemma {:induction false} ShownIffFound(c: Profile, item: Item)
    requires Validated(c)
    ensures Shown(LayoutOf(c), item) <==> Found(c, item)
  {
    ShownIsInRoot(c, item);
    SomewhereIffFound(c, Is(item));
    if Found(c, item) {
      assert FoundWith(c, Address(item), Is(item));
    }
  }

  lemma {:induction false} DeclaredIsComplete(m: Members, e: Endpoint)
    requires OwnShapeOk(m) && Declares(m, e)
    ensures Complete(e.key)
  {
    if HasTerminal(m.devices, e) {
      var d :| d in m.devices && d.id == e.key.owner && HasPin(d.terminals, e);
      var i :| 0 <= i < |m.devices| && m.devices[i] == d;
      assert IdOk(DeviceIds(m.devices), i);
      PinIsNamed(d.terminals, e);
    } else {
      var k :| k in m.connectors && k.id == e.key.owner && HasPin(k.contacts, e);
      var i :| 0 <= i < |m.connectors| && m.connectors[i] == k;
      assert IdOk(ConnectorIds(m.connectors), i) && ConnectorOk(m.connectors[i]);
      PinIsNamed(k.contacts, e);
    }
  }

  lemma {:induction false} PinIsNamed(pins: seq<Pin>, e: Endpoint)
    requires PinsOk(pins) && HasPin(pins, e)
    ensures Present(e.key.id)
  {
    var p :| p in pins && p.id == e.key.id && p.canonicalNet == e.net;
    var i :| 0 <= i < |pins| && pins[i] == p;
    assert IdOk(PinIds(pins), i);
  }

  /** Every endpoint of a validated profile has a full address. */
  lemma {:induction false} EndpointsAreComplete(c: Profile, e: Endpoint)
    requires Validated(c) && e in LayoutOf(c).endpoints
    ensures Complete(e.key)
  {
    ShownIffFound(c, EndpointItem(e));
    var place := FoundIsPlaced(c, e.key.path);
    PlacesAreChecked(c, place);
    var v := At(c, place).value;
    if Declares(v.instance.members, e) {
      var d: nat :| ShapeOk(v.instance.members, d);
      DeclaredIsComplete(v.instance.members, e);
    } else {
      DefinitionShaped(c, v.definition.value);
      DeclaredIsComplete(v.definition.value.members, e);
    }
  }

  // ----- the graph of a clean profile

  /** A node stands for this endpoint. */
  ghost predicate HasNode(graph: TopologyGraph, e: Endpoint)
    reads graph
  {
    exists i :: 0 <= i < |graph.nodes| && Shows(graph.nodes[i], e, graph.assemblies)
  }

  lemma {:induction false} NodesAreEndpoints(s: Layout, graph: TopologyGraph, i: nat, e: Endpoint)
    requires ShowsLayout(graph.assemblies, graph.nodes, s) && i < |graph.nodes|
    ensures Shows(graph.nodes[i], e, graph.assemblies) <==> e == s.endpoints[i]
  {
    assert Shows(graph.nodes[i], s.endpoints[i], s.paths);
  }

  /** The graph of a profile without findings has an assembly for exactly the paths that lead to one, the host among
      them, and exactly one node for every endpoint that following its address through the profile finds. */
  lemma {:induction false} CleanGraphIsTheProfile(c: Profile, graph: TopologyGraph, path: string, e: Endpoint, i: nat)
    requires WellFormed(c) && graph.Valid() && Faithful(c, graph)
    ensures path in graph.assemblies <==> FindAssembly(c, path).Some?
    ensures Text(c.hostAssembly) in graph.assemblies
    ensures HasNode(graph, e) <==> FindAssembly(c, e.key.path).Some? && Offers(FindAssembly(c, e.key.path).value, e)
    ensures i < |graph.nodes| && Shows(graph.nodes[i], e, graph.assemblies) ==>
              forall j :: 0 <= j < |graph.nodes| && Shows(graph.nodes[j], e, graph.assemblies) ==> j == i
  {
    var s := LayoutOf(c);
    ShownIffFound(c, AssemblyPath(path));
    ShownIffFound(c, AssemblyPath(Text(c.hostAssembly)));
    ShownIffFound(c, EndpointItem(e));
    forall k | 0 <= k < |graph.nodes| ensures Shows(graph.nodes[k], e, graph.assemblies) <==> e == s.endpoints[k] {
      NodesAreEndpoints(s, graph, k, e);
    }
    if e in s.endpoints {
      EndpointsAreComplete(c, e);
      assert Distinct(s.endpoints);
    }
  }
}
