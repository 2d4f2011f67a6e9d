/** A profile that passes the shape checks of validation survives the trip through the positional document. */
module ValidatedDocuments {
  import opened Common
  import opened HardwareProfile
  import opened HardwareValidation
  import opened HardwareRoundTrip
  import HardwareCodec

  lemma {:induction false} ShapedMembersTravel(m: Members, depth: nat)
    requires ShapeOk(m, depth)
    ensures MembersInRange(m) && MembersHaveIds(m)
    decreases m, 1
  {
    ShapedAssembliesTravel(m.assemblies, depth);
    forall d | d in m.devices ensures DeviceInRange(d) && DeviceHasIds(d) {
      var i :| 0 <= i < |m.devices| && m.devices[i] == d;
      PinsTravel(d.terminals);
    }
    forall k | k in m.connectors ensures ConnectorInRange(k) && ConnectorHasIds(k) {
      var i :| 0 <= i < |m.connectors| && m.connectors[i] == k;
      assert ConnectorOk(m.connectors[i]);
      PinsTravel(k.contacts);
    }
    forall w | w in m.connections ensures ConnectionInRange(w) {
      var i :| 0 <= i < |m.connections| && m.connections[i] == w;
      assert ConnectionOk(m.connections[i], true);
    }
  }

  lemma {:induction false} PinsTravel(pins: seq<Pin>)
    requires PinsOk(pins)
    ensures PinsHaveIds(pins) && forall p :: p in pins ==> PinInRange(p)
  {
    forall p | p in pins ensures p.id.Some? && PinInRange(p) {
      var i :| 0 <= i < |pins| && pins[i] == p;
      assert IdOk(PinIds(pins), i);
    }
  }

  lemma {:induction false} ShapedAssembliesTravel(assemblies: seq<Assembly>, depth: nat)
    requires forall i :: 0 <= i < |assemblies| ==> ChildShapeOk(assemblies[i], depth)
    ensures AssembliesInRange(assemblies) && AssembliesHaveIds(assemblies)
    decreases assemblies
  {
    if assemblies != [] {
      assert ChildShapeOk(assemblies[0], depth);
      ShapedAssemblyTravels(assemblies[0], depth);
      assert forall i :: 0 <= i < |assemblies| - 1 ==> assemblies[1..][i] == assemblies[i + 1];
      ShapedAssembliesTravel(assemblies[1..], depth);
    }
  }

  lemma {:induction false} ShapedAssemblyTravels(a: Assembly, depth: nat)
    requires ChildShapeOk(a, depth)
    ensures AssemblyInRange(a) && AssemblyHasIds(a)
    decreases a
  {
    ShapedMembersTravel(a.members, depth + 1);
  }

  lemma {:induction false} RootsTravel(roots: seq<Assembly>)
    requires forall i :: 0 <= i < |roots| ==> roots[i].kind <= ASSEMBLY_GENERIC && ShapeOk(roots[i].members, 0)
    ensures AssembliesInRange(roots) && AssembliesHaveIds(roots)
    decreases |roots|
  {
    if roots != [] {
      ShapedMembersTravel(roots[0].members, 0);
      assert forall i :: 0 <= i < |roots| - 1 ==> roots[1..][i] == roots[i + 1];
      RootsTravel(roots[1..]);
    }
  }

  /** Every profile whose shapes validate: its positional document decodes, and to the very document it names. */
  lemma {:induction false} ValidProfileRoundTrips(c: Profile)
    requires WellShaped(c)
    ensures HardwareCodec.DecodeHardware(HardwareCodec.PackedHardware(c)) == Some(HardwareCodec.NamedHardware(c, Null))
  {
    forall d | d in c.definitions ensures DefinitionInRange(d) && DefinitionHasIds(d) {
      var i :| 0 <= i < |c.definitions| && c.definitions[i] == d;
      ShapedMembersTravel(d.members, 0);
    }
    RootsTravel(c.roots);
    forall w | w in c.connections ensures ConnectionInRange(w) {
      var i :| 0 <= i < |c.connections| && c.connections[i] == w;
      assert ConnectionOk(c.connections[i], false);
    }
    PositionalFormIsTheNamedForm(c);
  }
}
