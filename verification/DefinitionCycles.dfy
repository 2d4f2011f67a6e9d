/** Finding definitions, and telling whether their references ever come back to where they started. */
module DefinitionCycles {
  import opened Common
  import opened HardwareProfile

  /** The first definition with this id. */
  function FindFrom(definitions: seq<HardwareDefinition>, id: string, from: nat): (found: Option<HardwareDefinition>)
    requires from <= |definitions|
    ensures found.Some? ==> found.value in definitions && found.value.id == Some(id)
    decreases |definitions| - from
  {
    if from == |definitions| then None
    else if id != "" && definitions[from].id == Some(id) then Some(definitions[from])
    else FindFrom(definitions, id, from + 1)
  }

  function FindDefinition(c: Profile, id: CStr): (found: Option<HardwareDefinition>)
    ensures found.Some? ==> found.value in c.definitions && found.value.id == id && Present(id)
  {
    if !Present(id) then None else FindFrom(c.definitions, id.value, 0)
  }

  // ----- the check, as it recurses

  /** Whether following children and definitions from `m` comes back to `start`, or goes on for too long. */
  predicate CycleFrom(c: Profile, start: HardwareDefinition, m: Members, depth: nat)
    decreases MAX_GRAPH_ENDPOINTS + 1 - depth, |m.assemblies| + 1
  {
    Present(start.id) && (depth > MAX_GRAPH_ENDPOINTS || CycleAmong(c, start, m, depth, 0))
  }

  predicate CycleAmong(c: Profile, start: HardwareDefinition, m: Members, depth: nat, i: nat)
    requires depth <= MAX_GRAPH_ENDPOINTS && i <= |m.assemblies|
    decreases MAX_GRAPH_ENDPOINTS + 1 - depth, |m.assemblies| - i
  {
    i < |m.assemblies| && (CycleAt(c, start, m.assemblies[i], depth) || CycleAmong(c, start, m, depth, i + 1))
  }

  predicate CycleAt(c: Profile, start: HardwareDefinition, child: Assembly, depth: nat)
    requires depth <= MAX_GRAPH_ENDPOINTS
    decreases MAX_GRAPH_ENDPOINTS + 1 - depth, 0
  {
    || (Present(child.definition) && child.definition == start.id)
    || (FindDefinition(c, child.definition).Some?
        && CycleFrom(c, start, FindDefinition(c, child.definition).value.members, depth + 1))
    || CycleFrom(c, start, child.members, depth + 1)
  }

  method DefinitionCycleFrom(c: Profile, start: HardwareDefinition, m: Members, depth: nat) returns (cycle: bool)
    ensures cycle == CycleFrom(c, start, m, depth)
    decreases MAX_GRAPH_ENDPOINTS + 1 - depth
  {
    if !Present(start.id) {
      return false;
    }
    if depth > MAX_GRAPH_ENDPOINTS {
      return true;
    }
    for i := 0 to |m.assemblies|
      invariant CycleAmong(c, start, m, depth, 0) == CycleAmong(c, start, m, depth, i)
    {
      var child := m.assemblies[i];
      if Present(child.definition) {
        if child.definition == start.id {
          return true;
        }
        var next := FindDefinition(c, child.definition);
        if next.Some? {
          var through := DefinitionCycleFrom(c, start, next.value.members, depth + 1);
          if through {
            return true;
          }
        }
      }
      var nested := DefinitionCycleFrom(c, start, child.members, depth + 1);
      if nested {
        return true;
      }
    }
    cycle := false;
  }

  // ----- what it means: chains of member lists

  /** From an assembly one gets to its own members, and to those of the definition it refers to. */
  predicate Leads(c: Profile, a: Assembly, m: Members) {
    m == a.members
    || (FindDefinition(c, a.definition).Some? && m == FindDefinition(c, a.definition).value.members)
  }

  predicate Step(c: Profile, m: Members, next: Members) {
    exists i :: 0 <= i < |m.assemblies| && Leads(c, m.assemblies[i], next)
  }

  /** Some child refers to the definition with this id. */
  predicate RefersTo(m: Members, id: CStr) {
    Present(id) && exists i :: 0 <= i < |m.assemblies| && m.assemblies[i].definition == id
  }

  ghost predicate IsChain(c: Profile, p: seq<Members>) {
    |p| > 0 && forall k :: 0 <= k < |p| - 1 ==> Step(c, p[k], p[k + 1])
  }

  ghost predicate ChainFrom(c: Profile, m: Members, p: seq<Members>) {
    IsChain(c, p) && p[0] == m
  }

  /** The chain is longer than any the check follows, or ends at a child that refers back to `start`. */
  ghost predicate Accuses(start: HardwareDefinition, p: seq<Members>, depth: nat)
    requires |p| > 0
  {
    depth + |p| - 1 > MAX_GRAPH_ENDPOINTS || RefersTo(p[|p| - 1], start.id)
  }

  lemma {:induction false} CycleAmongIs(c: Profile, start: HardwareDefinition, m: Members, depth: nat, i: nat)
    requires depth <= MAX_GRAPH_ENDPOINTS && i <= |m.assemblies|
    ensures CycleAmong(c, start, m, depth, i) <==>
            exists k :: i <= k < |m.assemblies| && CycleAt(c, start, m.assemblies[k], depth)
    decreases |m.assemblies| - i
  {
    if i < |m.assemblies| {
      CycleAmongIs(c, start, m, depth, i + 1);
    }
  }

  lemma {:induction false} Extend(c: Profile, m: Members, p: seq<Members>)
    requires IsChain(c, p) && Step(c, m, p[0])
    ensures ChainFrom(c, m, [m] + p)
  {
  }

  /** Whatever the check accuses, it can show a chain for. */
  lemma {:induction false} AccusedHasChain(c: Profile, start: HardwareDefinition, m: Members,
                                           depth: nat) returns (p: seq<Members>)
    requires depth <= MAX_GRAPH_ENDPOINTS + 1 && CycleFrom(c, start, m, depth)
    ensures ChainFrom(c, m, p) && Accuses(start, p, depth)
    decreases MAX_GRAPH_ENDPOINTS + 1 - depth
  {
    p := [m];
    if depth <= MAX_GRAPH_ENDPOINTS {
      CycleAmongIs(c, start, m, depth, 0);
      var k :| 0 <= k < |m.assemblies| && CycleAt(c, start, m.assemblies[k], depth);
      var child := m.assemblies[k];
      if Present(child.definition) && child.definition == start.id {
        assert RefersTo(m, start.id);
      } else {
        var next := if CycleFrom(c, start, child.members, depth + 1) then child.members
                    else FindDefinition(c, child.definition).value.members;
        assert Leads(c, child, next);
        var q := AccusedHasChain(c, start, next, depth + 1);
        Extend(c, m, q);
        p := [m] + q;
      }
    }
  }

  /** Any accusing chain is found. */
  lemma {:induction false} ChainIsAccused(c: Profile, start: HardwareDefinition, m: Members, depth: nat, p: seq<Members>)
    requires Present(start.id) && ChainFrom(c, m, p) && Accuses(start, p, depth)
    ensures CycleFrom(c, start, m, depth)
    decreases |p|
  {
    if depth <= MAX_GRAPH_ENDPOINTS {
      CycleAmongIs(c, start, m, depth, 0);
      if |p| == 1 {
        var k :| 0 <= k < |m.assemblies| && m.assemblies[k].definition == start.id;
        assert CycleAt(c, start, m.assemblies[k], depth);
      } else {
        var k :| 0 <= k < |m.assemblies| && Leads(c, m.assemblies[k], p[1]);
        var rest := p[1..];
        assert forall j :: 0 <= j < |rest| ==> rest[j] == p[j + 1];
        assert ChainFrom(c, p[1], rest);
        ChainIsAccused(c, start, p[1], depth + 1, rest);
        assert CycleAt(c, start, m.assemblies[k], depth);
      }
    }
  }

  /** The check says yes exactly when some chain runs past its depth limit or comes back to a reference to `start`. */
  lemma {:induction false} CycleIffChain(c: Profile, start: HardwareDefinition)
    requires Present(start.id)
    ensures CycleFrom(c, start, start.members, 0) <==>
            exists p: seq<Members> :: ChainFrom(c, start.members, p) && Accuses(start, p, 0)
  {
    if CycleFrom(c, start, start.members, 0) {
      var p := AccusedHasChain(c, start, start.members, 0);
    }
    if p: seq<Members> :| ChainFrom(c, start.members, p) && Accuses(start, p, 0) {
      ChainIsAccused(c, start, start.members, 0, p);
    }
  }

  /** A loop can be walked as often as one likes. */
  lemma {:induction false} Pump(c: Profile, p: seq<Members>, i: nat, j: nat, n: nat) returns (q: seq<Members>)
    requires IsChain(c, p) && i < j < |p| && p[i] == p[j]
    ensures ChainFrom(c, p[0], q) && |q| > n && q[|q| - 1] == p[j]
  {
    if n == 0 {
      q := p[..j + 1];
    } else {
      var shorter := Pump(c, p, i, j, n - 1);
      q := shorter + p[i + 1..j + 1];
      forall k | 0 <= k < |q| - 1 ensures Step(c, q[k], q[k + 1]) {
        if k == |shorter| - 1 {
          assert Step(c, p[i], p[i + 1]);
        } else if k >= |shorter| {
          var at := i + 1 + k - |shorter|;
          assert q[k] == p[at] && q[k + 1] == p[at + 1];
          assert Step(c, p[at], p[at + 1]);
        }
      }
    }
  }

  /** A cycle reachable from a definition, through definitions or inline nesting, is always reported there. */
  lemma {:induction false} ReachableCycleIsReported(c: Profile, start: HardwareDefinition, p: seq<Members>, i: nat, j: nat)
    requires Present(start.id) && ChainFrom(c, start.members, p) && i < j < |p| && p[i] == p[j]
    ensures CycleFrom(c, start, start.members, 0)
  {
    var q := Pump(c, p, i, j, MAX_GRAPH_ENDPOINTS + 1);
    ChainIsAccused(c, start, start.members, 0, q);
  }

  /** When no definition is accused the references are well founded: from any definition every chain is bounded, never
      passes through the same members twice, and never refers back. */
  lemma {:induction false} ClearedDefinitionsAreWellFounded(c: Profile, d: HardwareDefinition, p: seq<Members>)
    requires forall e :: e in c.definitions ==> Present(e.id) && !CycleFrom(c, e, e.members, 0)
    requires d in c.definitions && ChainFrom(c, d.members, p)
    ensures |p| <= MAX_GRAPH_ENDPOINTS + 1
    ensures forall i, j :: 0 <= i < j < |p| ==> p[i] != p[j]
    ensures forall k :: 0 <= k < |p| ==> !RefersTo(p[k], d.id)
  {
    if |p| > MAX_GRAPH_ENDPOINTS + 1 {
      ChainIsAccused(c, d, d.members, 0, p);
    }
    forall i, j | 0 <= i < j < |p| ensures p[i] != p[j] {
      if p[i] == p[j] {
        ReachableCycleIsReported(c, d, p, i, j);
      }
    }
    forall k | 0 <= k < |p| ensures !RefersTo(p[k], d.id) {
      var q := p[..k + 1];
      assert forall j :: 0 <= j < |q| ==> q[j] == p[j];
      if RefersTo(p[k], d.id) {
        ChainIsAccused(c, d, d.members, 0, q);
      }
    }
  }
}
