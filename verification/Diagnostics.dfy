/** The bounded list of findings that validation and graph building add to. */
module Diagnostics {
  import opened Common
  import opened HardwareProfile

  datatype Code =
    | InvalidProfile | InvalidId | DuplicateId | UnknownDefinition | DefinitionCycle | DuplicateMember
    | AssemblyNotFound | DeviceNotFound | ConnectorNotFound | TerminalNotFound | ContactNotFound
    | CrossAssemblyDeviceConnection | DuplicateConnection | CanonicalNetConflict | CapacityExceeded
    | InvalidValue | SelfConnection

  datatype Diagnostic = Diagnostic(code: Code, path: string, message: string)

  class ValidationResult {
    var diagnostics: seq<Diagnostic>
    var truncated: bool

    /** No finding appears twice, and none was dropped while there was room. */
    ghost predicate Valid()
      reads this
    {
      && |diagnostics| <= MAX_DIAGNOSTICS
      && (truncated ==> |diagnostics| == MAX_DIAGNOSTICS)
      && (forall i, j :: 0 <= i < j < |diagnostics| ==> diagnostics[i] != diagnostics[j])
    }

    predicate Clean()
      reads this
    {
      diagnostics == [] && !truncated
    }

    constructor ()
      ensures Valid() && Clean()
    {
      diagnostics, truncated := [], false;
    }

    /** A finding is kept once; one that does not fit leaves its mark in `truncated`. */
    method AddDiagnostic(code: Code, path: string, message: string)
      requires Valid()
      modifies this
      ensures Valid() && !Clean()
      ensures var d := Diagnostic(code, path, message);
              if d in old(diagnostics) then diagnostics == old(diagnostics) && truncated == old(truncated)
              else if old(|diagnostics|) < MAX_DIAGNOSTICS then
                diagnostics == old(diagnostics) + [d] && truncated == old(truncated)
              else diagnostics == old(diagnostics) && truncated
    {
      for i := 0 to |diagnostics|
        invariant forall k :: 0 <= k < i ==> diagnostics[k] != Diagnostic(code, path, message)
        invariant unchanged(this)
      {
        if diagnostics[i].code == code && diagnostics[i].path == path && diagnostics[i].message == message {
          return;
        }
      }
      if |diagnostics| >= MAX_DIAGNOSTICS {
        truncated := true;
        return;
      }
      diagnostics := diagnostics + [Diagnostic(code, path, message)];
    }
  }
}
