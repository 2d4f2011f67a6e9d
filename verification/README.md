# NightMare: a verified model

The NightMare framework runs on small networked devices. This project models the parts of it whose
correctness rests on an argument rather than on a line of code, and proves that argument:

* **Hardware topology.** A device describes its wiring as a tree of assemblies that may refer to reusable
  definitions. Validation checks the description, expansion flattens it into a bounded graph, and a
  union-find turns the graph's edges into electrical nets (`HardwareProfile`, `DefinitionCycles`, `Expansion`,
  `Topology`, `NetInference`, `Diagnostics`, `HardwareValidation`, `Addressing`, `Endpoints`, `Connections`).
* **Positional documents.** The hardware description and the two resource manifests each have a readable
  form, a compact positional form, and a decoder from the second to the first (`Documents`, `HardwareCodec`,
  `HardwareRoundTrip`, `HardwareWriter`, `ValidatedDocuments`, `ManifestCodec`, `ManifestWriter`). What was declared can
  be read back from the readable form (`HardwareReading`, `ManifestReading`).
* **Resources and subscriptions.** A registry of resources keeps the broker's filter set in step
  incrementally, and routes incoming topics: what was asked for is what is taken (`Resources`, `Registry`,
  `RegistryRuns`, `Delivery`, `ResourcesManager`).
* **Persistence.** An atomic file write carries a settings table, which carries the two-write adoption of a new
  device identity (`Storage`, `Settings`, `Identity`).
* **Scheduler.** A table of timed jobs, some of them persisted, run by a tick that unlocks the table while a
  job runs (`SchedulerTable`, `SchedulerInvariants`, `SchedulerRuns`, `SchedulerTiming`, `SchedulerWallTiming`,
  `SchedulerLateLoad`, `Scheduler`).
* **Command scanner** and **gateway recovery** (`CommandScanner`, `GatewayRecovery`, `GatewayState`).

`Common` holds optional values, C strings, fixed-width integers and JSON trees.

Objects whose methods update fields are classes with the same fields. Each method is proved equal to a function on
values, or to a property said outright; the theorems are then about those functions, over all inputs and all runs.
Flash writes, crashes, clocks and what callbacks do are parameters: a write takes the outcome it will have,
a tick takes the clock readings and what happens to the table during each run, and the theorems hold for all of them.

`dafny verify dfyconfig.toml` checks everything.

## What the code does not keep

Seven properties one might expect fail for some inputs. For each it is proved exactly when.

* A pin whose id is a null pointer is `null` in the readable hardware document and an empty text in the positional one
  (`HardwareRoundTrip.PositionalFormIsTheNamedForm`, `HardwareRoundTrip.NullPinIdBreaksTheForms`). Validation
  excludes such profiles (`ValidatedDocuments.ValidProfileRoundTrips`).
* The tail of a resource's hardware record is optional, so appended elements are read as its missing part unless all
  four positions are there (`ManifestCodec.HardwareTailIsRead`).
* When storage comes up while a tick runs, a job loaded then may have the id of a job that has just run, and run in the
  same tick. Under some plan of callbacks that happens if and only if the file holds a due record, whose removal can
  be saved if it needs to be, under the id of a due job with slots after it (`SchedulerLateLoad.IdsRunOnceIff`,
  `SchedulerLateLoad.ReachableIdsRunOnceIff`). What always holds is that every job run was due and none was added
  meanwhile (`SchedulerLateLoad.NoneAddedMeanwhileRuns`).
* Clearing a scope promises, in the comment at src/Core/Scheduler.cpp:337-339, to leave file and memory as they were on
  failure; the write truncates the file first (`SchedulerInvariants.FailedClearTearsFile`). The file is unchanged if
  and only if no write was attempted or it left the old bytes (`SchedulerInvariants.FailedClearKeepsFileIff`,
  `SchedulerInvariants.FailedClearKeepsSavedFileIff`); memory always is (`SchedulerInvariants.ClearIsAllOrNothing`).
* The comment at src/Core/DeviceIdentity.cpp:292-294 says a cleanup counts as done once the record on flash says so.
  A failed removal of the record is not taken back in the settings table, so a later report can be answered true with
  the record still there: if and only if it clears the last bit and the table in memory, but not the file, has lost the
  record (`Identity.TrueReportRecordRemainsIff`, `Identity.TrueReportRecordRemains`).
* A boot that cannot read its settings file starts from an empty table and forgets a pending cleanup if and only if
  something it saves reaches the flash (`Identity.RecordSurvivesBootIff`, `Identity.BlindSaveForgetsIff`).
* A batch of wills is published for a gateway generation never reported offline if and only if a snapshot without a
  generation comes while nothing since the last online says that the gateway is gone or which generation it is
  (`GatewayRecovery.UnreportedIsPublishedIff`, `GatewayRecovery.UnreportedBatchIff`). And the order of an offline
  report and a snapshot matters if and only if an older snapshot of that generation with other wills is waiting
  (`GatewayRecovery.OrderDoesNotMatter`).

## Model

| member | source | states |
|---|---|---|
| NetInference.InferNets | src/NightMare/HardwareProfile.cpp:608-639 | The whole answer said by connectivity alone: two nodes share a net number exactly when a path of edges joins them, nets are numbered by first node, the count is the number of components, a net is named by its first named node and flagged exactly when two of its nodes clash |
| NetInference.Chase | src/NightMare/HardwareProfile.cpp:614-618 | Chasing parents terminates and ends at the one root of the tree |
| NetInference.UniteEdge | src/NightMare/HardwareProfile.cpp:613-620 | After one more edge the parent array is still a forest and its roots are the components of the edges so far |
| NetInference.UniteEdges | src/NightMare/HardwareProfile.cpp:611-620 | The forest built from all edges has one root per connected component |
| NetInference.HangKeepsForest | src/NightMare/HardwareProfile.cpp:619 | Hanging one root under another root keeps every chase climbing to a single root |
| NetInference.HangMergesComponents | src/NightMare/HardwareProfile.cpp:615-619 | Uniting merges exactly the two components of the edge, or none when they are one already |
| NetInference.AddEdge | src/NightMare/HardwareProfile.cpp:613-620 | Which pairs one more edge connects: those connected before, and those joined through its two ends |
| NetInference.NumberNode | src/NightMare/HardwareProfile.cpp:625-630 | A root seen first opens the next net, a known root shares its net; the numbering identifies components after every node |
| NetInference.NameNode | src/NightMare/HardwareProfile.cpp:631-636 | After every node, names and conflict flags are right for all nodes seen so far |
| NetInference.PlaceNodes | src/NightMare/HardwareProfile.cpp:621-637 | The numbering loop reaches the full answer without disturbing the forest |
| NetInference.EdgeOrderIsIrrelevant | src/NightMare/HardwareProfile.cpp:608-639 | Reordering edges or swapping their ends changes no part of the result |
| NetInference.FlagsSayConflict | src/NightMare/HardwareProfile.cpp:631-636 | Some net is flagged exactly when two connected nodes carry different named identities |
| DefinitionCycles.DefinitionCycleFrom | src/NightMare/HardwareProfile.cpp:254-275 | The recursive check terminates and answers as its depth-bounded search |
| DefinitionCycles.CycleIffChain | src/NightMare/HardwareProfile.cpp:254-275 | It says yes exactly when some chain of references runs past the depth limit or comes back to a reference to the start |
| DefinitionCycles.ReachableCycleIsReported | src/NightMare/HardwareProfile.cpp:254-275 | Any cycle reachable from a definition, through definitions or inline nesting, is reported for that definition |
| DefinitionCycles.ClearedDefinitionsAreWellFounded | src/NightMare/HardwareProfile.cpp:685-692 | When no definition is accused, every chain of references is bounded, repeats nothing and never refers back |
| Diagnostics.ValidationResult.AddDiagnostic | src/NightMare/HardwareProfile.cpp:155-165 | A finding is kept once; when the list is full it is marked truncated instead; the result is never clean afterwards |
| Topology.FindAssemblyIndex | src/NightMare/HardwareProfile.cpp:322-327 | Finds a path if and only if the graph has it |
| Topology.FindNode | src/NightMare/HardwareProfile.cpp:343-353 | Finds the node of an endpoint if there is one; an endpoint without owner or id never matches |
| Topology.AddAssembly | src/NightMare/HardwareProfile.cpp:329-341 | Each path is kept once; failure only when a new path finds the graph full, and then it is reported |
| Topology.AddNode | src/NightMare/HardwareProfile.cpp:355-374 | While the graph shows a layout that fits, a node is refused exactly when the layout with this endpoint would not fit |
| Topology.AddPins | src/NightMare/HardwareProfile.cpp:376-428 | The pins of one owner: the graph goes on showing the layout exactly as long as it fits, and findings tell failure from success |
| Topology.AddMembers | src/NightMare/HardwareProfile.cpp:376-428 | The same for all devices and connectors of one member list |
| Topology.CollectNodes | src/NightMare/HardwareProfile.cpp:376-428 | An assembly and everything below it is in the graph, once and in order, or something did not fit and was reported |
| Topology.FindEndpoint | src/NightMare/HardwareProfile.cpp:449-458 | An endpoint reference resolves to a node exactly when the expanded profile has that endpoint |
| Topology.MayJoin | src/NightMare/HardwareProfile.cpp:449-488 | A connection is admitted exactly when it joins two different existing endpoints, and only connector contacts across assemblies |
| Topology.AddConnection | src/NightMare/HardwareProfile.cpp:441-511 | One more edge is added exactly when the connection can be joined, is no repetition either way round and fits |
| Topology.AddConnections | src/NightMare/HardwareProfile.cpp:441-511 | A list of connections, also when it is left early because the graph is full |
| Topology.CollectConnections | src/NightMare/HardwareProfile.cpp:513-545 | The connections of an assembly and of all below it are edges of the graph exactly as long as all can be joined |
| Topology.BuildTopologyGraph | src/NightMare/HardwareProfile.cpp:581-606 | Succeeds exactly for the profiles that have a graph, and then shows all of it; otherwise something is reported |
| Expansion.EndpointIsOneNode | src/NightMare/HardwareProfile.cpp:343-374 | In a graph that shows a fitting layout, each complete endpoint is one node and no other |
| Expansion.EdgesAreProper | src/NightMare/HardwareProfile.cpp:441-511 | No edge is a self-loop, and one between two assemblies joins two connector contacts |
| Expansion.EdgesAreDistinct | src/NightMare/HardwareProfile.cpp:441-511 | No two edges join the same pair of nodes, in either direction |
| Expansion.FaithfulGraphIsSimple | src/NightMare/HardwareProfile.cpp:581-606 | All three for the whole graph of any profile that has one |
| HardwareValidation.ValidateHwConfig | src/NightMare/HardwareProfile.cpp:641-749 | Validation is clean if and only if the workspace could be had and the profile is well formed: shapes and ids, no definition cycle, every reference resolves, every definition and the profile itself has a graph without net conflicts, the host is found |
| HardwareValidation.ValidateIds | src/NightMare/HardwareProfile.cpp:167-188 | Findings appear exactly when some id is invalid or repeated |
| HardwareValidation.ValidateMemberShape | src/NightMare/HardwareProfile.cpp:190-252 | Findings appear exactly when some id, enumeration, connection address or nesting depth is wrong at any level |
| HardwareValidation.ValidateInstanceDefinitions | src/NightMare/HardwareProfile.cpp:277-320 | Findings appear exactly when a reference below the assembly is unknown, an inline member redeclares a defined one, or the depth is exceeded |
| HardwareValidation.ValidateCycles | src/NightMare/HardwareProfile.cpp:685-692 | Findings appear exactly when some definition is accused of a cycle |
| HardwareValidation.ValidateGraph | src/NightMare/HardwareProfile.cpp:735-741 | Findings appear exactly when the profile has no graph or its graph has a net in conflict |
| HardwareValidation.FaithfulEdges | src/NightMare/HardwareProfile.cpp:441-511 | A profile determines the edges of its graph |
| HardwareValidation.ConflictsAreShown | src/NightMare/HardwareProfile.cpp:735-741 | The graph has a net in conflict exactly when two connected endpoints of the profile clash |
| HardwareValidation.CleanProfileHasFaithfulGraph | src/NightMare/HardwareProfile.cpp:641-749 | No findings: one node per endpoint, one edge per connection, no loop, no repetition, only contacts across assemblies, no conflict |
| Addressing.PathLeadsToPlace | src/NightMare/HardwareProfile.cpp:92-121 | Following the path under which the expansion placed an assembly finds that assembly |
| Addressing.PlacesHaveOwnPaths | src/NightMare/HardwareProfile.cpp:376-428 | No two assemblies of a validated profile share a path, so none is merged with another in the graph |
| Addressing.ShownIffFound | src/NightMare/HardwareProfile.cpp:376-428 | The expansion shows an assembly or an endpoint exactly when following its address through the profile finds it |
| Addressing.EndpointsAreComplete | src/NightMare/HardwareProfile.cpp:343-374 | Every endpoint of a validated profile has an owner and an id, so the one-node-each result covers all of them |
| Addressing.CleanGraphIsTheProfile | src/NightMare/HardwareProfile.cpp:581-606 | The graph of a profile without findings has exactly the assemblies and endpoints that path lookup finds, each endpoint as exactly one node, the host assembly included |
| Connections.WiredIffDeclared | src/NightMare/HardwareProfile.cpp:513-606 | The expansion wires up a link exactly when the profile itself, or some assembly that path lookup finds, declares a connection that resolves to it |
| Connections.CleanGraphIsWired | src/NightMare/HardwareProfile.cpp:581-606 | In the graph of a profile without findings two endpoint nodes are joined by an edge exactly when such a declaration joins the two endpoints |
| Connections.ResolvesIffOffered | src/NightMare/HardwareProfile.cpp:441-458 | An endpoint is found among those the expansion lists exactly when the assembly that path lookup finds for its path offers it |
| Connections.BuildableIff | src/NightMare/HardwareProfile.cpp:441-606 | A validated profile has a graph if and only if its assemblies, endpoints and connections are no more than the graph holds, no two connections have the same ends, and every connection declared anywhere has two different ends, each offered by the assembly its path leads to, and either lies within one assembly or joins two contacts |
| Endpoints.ValidatedEndpointsAreDistinct | src/NightMare/HardwareProfile.cpp:343-428 | The expansion of a validated profile lists no endpoint twice: a duplicate is never what keeps it from the graph |
| Endpoints.ValidatedFitsIff | src/NightMare/HardwareProfile.cpp:329-428 | What can keep the assemblies and endpoints of a validated profile from the graph is their number alone, at every depth |
| HardwareRoundTrip.DecodePackedAssembly | src/Core/Telemetry.cpp:165-229 | Decoding a packed assembly gives its named form exactly when its enumerations are in range, by mutual recursion over the tree |
| HardwareRoundTrip.DecodePackedMembers | src/Core/Telemetry.cpp:365-442 | The same for a member list, in terms of the decoder |
| HardwareRoundTrip.DecodePackedHardware | src/Core/Telemetry.cpp:858-903 | The positional document decodes exactly when every enumeration at every depth is in range, and to the named document with empty text for a null pin id |
| HardwareRoundTrip.PositionalFormIsTheNamedForm | src/Core/Telemetry.cpp:556-606 | Decoding the positional document gives the named one if and only if enumerations are in range and no pin id is a null pointer |
| HardwareRoundTrip.NullPinIdBreaksTheForms | src/Core/Telemetry.cpp:178-296 | A profile with one null terminal id, whose two documents differ although the decoder succeeds |
| HardwareRoundTrip.AppendedElementsAreIgnored | src/NightMare/HardwareProfile.h:11-29 | Appending elements to any record of the document, at any depth, changes nothing in the decoded result |
| ValidatedDocuments.ValidProfileRoundTrips | src/Core/Telemetry.cpp:556-606 | For every profile whose shapes validate the positional document decodes, and to exactly the named document |
| HardwareReading.HardwareBack | src/Core/Telemetry.cpp:98-296 | The readable document says the profile: every text, in-range enumeration, wire field and list, in order and at every depth, can be read back from it |
| HardwareReading.SameDocumentSameProfile | src/Core/Telemetry.cpp:556-579 | Profiles with the same readable document agree in all of these |
| HardwareReading.SamePositionsSameProfile | src/Core/Telemetry.cpp:581-606 | So do profiles within their enumerations with the same positional document |
| HardwareReading.WireIsWritten | src/Core/Telemetry.cpp:109-126 | A wire is written exactly when one of its texts is present or its length is not zero, and each of the four keys exactly when its value is there, holding it |
| HardwareWriter.AppendPins | src/Core/Telemetry.cpp:253-292 | The loop over terminals or contacts writes each with its id, name and named net; a null id stays null |
| HardwareWriter.AppendDevices | src/Core/Telemetry.cpp:253-272 | The loop writes the named form of every device, in order |
| HardwareWriter.AppendConnectors | src/Core/Telemetry.cpp:273-292 | The loop writes the named form of every connector, in order |
| HardwareWriter.AppendAssembly | src/Core/Telemetry.cpp:233-246 | The object written for one assembly is its named form, a generic kind left out where a definition is referred to |
| HardwareWriter.AppendMembers | src/Core/Telemetry.cpp:248-296 | The four member lists are added to the fields already written, which are kept |
| HardwareWriter.BuildNamedHardware | src/Core/Telemetry.cpp:556-579 | The document written is the named form of the profile |
| HardwareWriter.AppendPackedAssembly | src/Core/Telemetry.cpp:165-176 | The loop that writes one assembly appends exactly its packed form |
| HardwareWriter.AppendPackedMembers | src/Core/Telemetry.cpp:178-229 | The loops over the four member lists append exactly their packed forms |
| HardwareWriter.BuildPositionalHardware | src/Core/Telemetry.cpp:581-606 | The document written is the positional form of the profile |
| HardwareWriter.DecodePackedConnections | src/Core/Telemetry.cpp:323-343 | The loop succeeds exactly when every connection decodes, and then holds them in order |
| HardwareWriter.DecodePackedAssembly | src/Core/Telemetry.cpp:347-363 | Succeeds exactly when the assembly decodes at every depth |
| HardwareWriter.DecodePackedMembers | src/Core/Telemetry.cpp:365-442 | Succeeds exactly when all four lists decode, with the fields that were there kept |
| HardwareWriter.DecodeHardwareInto | src/Core/Telemetry.cpp:858-903 | The caller's document is replaced only by one that decoded whole |
| Resources.ParsePrintedTopic | src/Core/NetResources.cpp:50-73 | Reading the topic printed for a device, resource and operation gives back the three |
| Resources.PrintParsedTopic | src/Core/ResourcesManager.cpp:2861-2906 | Whatever reads as a resource topic is the topic printed from its parts |
| Resources.ParseManifestTopic | src/Core/NetResources.cpp:39-42 | A printed manifest topic reads back as that manifest |
| Resources.TopicsAreDistinct | src/Core/NetResources.cpp:39-73 | No two addresses, operations or documents share a topic, and none is a wildcard filter |
| Registry.IngressIsOwn | src/Core/ResourcesManager.cpp:368-403 | At an address no other resource has, no other resource needs the ingress filter |
| Registry.ManifestIsShared | src/Core/ResourcesManager.cpp:355-366 | A manifest filter is needed by others exactly when another remote resource follows the same owner |
| Registry.BindKeepsValid | src/Core/ResourcesManager.cpp:1103-1161 | Binding keeps names and addresses unique |
| Registry.AcceptsIff | src/Core/ResourcesManager.cpp:1103-1161 | A resource is admitted exactly when the registry with it is valid and, for a value of this device, its stored settings could be restored |
| Registry.BindKeepsExact | src/Core/ResourcesManager.cpp:1103-1191 | Binding asks the broker for exactly what the new resource adds |
| Registry.UnbindKeepsValid | src/Core/ResourcesManager.cpp:1219-1258 | Unbinding keeps names and addresses unique |
| Registry.UnbindKeepsExact | src/Core/ResourcesManager.cpp:1219-1258 | Unbinding gives up exactly what nobody else needs |
| Registry.RetargetKeepsValid | src/Core/ResourcesManager.cpp:1260-1291 | Pointing a resource at an admitted address keeps addresses unique |
| Registry.MayPointIff | src/Core/ResourcesManager.cpp:1260-1291 | A remote resource may be pointed somewhere else, or nowhere, exactly when that leaves the registry valid |
| Registry.NotifyKeepsExact | src/Core/ResourcesManager.cpp:1308-1349 | After a change of source the broker holds exactly what the registry now needs |
| Registry.ConfigureKeepsExact | src/Core/ResourcesManager.cpp:1260-1306 | So it does whether the change is persisted or rolled back |
| Registry.RollbackKeepsExact | src/Core/ResourcesManager.cpp:1286-1302 | A move and its rollback leave the filter set as it was |
| RegistryRuns.HandlerKeepsExact | src/Core/ResourcesManager.cpp:405-431 | Installing or clearing a manifest handler keeps the filter set exact |
| RegistryRuns.SubscribeAllIsExact | src/Core/ResourcesManager.cpp:620-641 | After a reconnect every needed filter is asked for exactly once, each owner manifest among them, and no other |
| RegistryRuns.StepKeepsInStep | src/Core/ResourcesManager.cpp:591-664 | Every operation keeps the registry valid and, while connected, the filter set exact |
| RegistryRuns.BrokerMatchesRegistry | src/Core/ResourcesManager.cpp:591-664 | Over every run from an empty registry, the filters held while connected are exactly those the registry needs |
| RegistryRuns.IngressReachesItsResource | src/Core/ResourcesManager.cpp:2861-2952 | A message on a bound resource's ingress topic goes to that resource alone; only a replayed event is dropped |
| RegistryRuns.DispatchedTopicIsPrinted | src/Core/ResourcesManager.cpp:2908-2952 | Whenever a resource is handed an operation, the incoming topic is the one printed for the two; it is the resource's own ingress topic except for a managed value that is not writable |
| Delivery.EncodedManifestTakenIff | src/Core/ResourcesManager.cpp:2884-2894 | A compact manifest is taken exactly when it is of another device and the broker was asked for it, by name or for all devices |
| Delivery.ReadableManifestTakenIff | src/Core/ResourcesManager.cpp:2872-2883 | A readable one exactly when it is of another device and the broker was asked for all of them |
| Delivery.AskedForIsTaken | src/Core/ResourcesManager.cpp:2861-2952 | Whatever the broker delivers for a filter that the registry needs is taken, but for manifests of the device's own or of no device name |
| Delivery.TakenIff | src/Core/ResourcesManager.cpp:2861-2952 | A message is taken if and only if the broker delivers it for a needed filter and it is no such manifest, or it is a write to a value that may only be read |
| ResourcesManager.NetResource.constructor | src/Core/NetResources.h:138-149 | A managed resource has no identity of its own; a remote one starts at its own name on the device it names |
| ResourcesManager.ResourcesManager.FindResourceByName | src/Core/ResourcesManager.cpp:679-696 | Tells whether some bound resource has this name |
| ResourcesManager.ResourcesManager.FindResource | src/Core/ResourcesManager.cpp:666-677 | The first bound resource at an address, if any |
| ResourcesManager.ResourcesManager.AddressTakenByOther | src/Core/ResourcesManager.cpp:716-729 | Whether another resource lives at the address, wherever the asking one stands in the table |
| ResourcesManager.ResourcesManager.RemoteOwnerInUse | src/Core/ResourcesManager.cpp:355-366 | Whether a remote resource other than the excluded one follows the owner |
| ResourcesManager.ResourcesManager.NeedsSubscription | src/Core/ResourcesManager.cpp:643-664 | Answers for every filter whether a handler or a bound resource needs it |
| ResourcesManager.ResourcesManager.SubscribeResource | src/Core/ResourcesManager.cpp:591-605 | The broker gains the ingress filter and, if asked, the owner manifest |
| ResourcesManager.ResourcesManager.UnsubscribeResource | src/Core/ResourcesManager.cpp:607-618 | The broker loses the same |
| ResourcesManager.ResourcesManager.ValidActionSchema | src/Core/ResourcesManager.cpp:316-328 | Argument names are present, valid and pairwise different |
| ResourcesManager.ResourcesManager.BindResource | src/Core/ResourcesManager.cpp:1103-1191 | Succeeds exactly when the resource is admitted; table and broker then move together and stay in step, otherwise nothing changes |
| ResourcesManager.ResourcesManager.UnbindResource | src/Core/ResourcesManager.cpp:1219-1258 | The resource leaves the table, the others keep their order, and the broker stays in step |
| ResourcesManager.ResourcesManager.NotifySourceChanged | src/Core/ResourcesManager.cpp:1308-1349 | What the broker is told about a move; nothing for a resource that is not bound |
| ResourcesManager.ResourcesManager.ConfigureRemoteSource | src/Core/ResourcesManager.cpp:1260-1306 | The new source is kept exactly when it is admitted and stored; a failed store leaves resource and broker as before |
| ResourcesManager.ResourcesManager.SetManifestHandler | src/Core/ResourcesManager.cpp:405-418 | Installing or clearing the readable handler keeps table and broker in step |
| ResourcesManager.ResourcesManager.SetEncodedManifestHandler | src/Core/ResourcesManager.cpp:420-431 | The same for the compact handler |
| ResourcesManager.ResourcesManager.SubscribeAll | src/Core/ResourcesManager.cpp:620-641 | Sends the handlers' filters and then each resource's, the manifest only for the first resource of its owner |
| ResourcesManager.ResourcesManager.Reconnected | src/Core/ResourcesManager.cpp:620-641 | From an empty broker the two are in step again |
| ResourcesManager.ResourcesManager.HandleIngressMessage | src/Core/ResourcesManager.cpp:2861-2952 | Where a message goes is decided by its topic and the table |
| ManifestCodec.CompactManifestIsReadable | src/Core/ResourcesManager.cpp:433-514 | For every table the compact manifest expands to the readable one |
| ManifestCodec.CompactConsumeManifestIsReadable | src/Core/ResourcesManager.cpp:516-589 | The compact consume manifest expands to the readable one, and is refused exactly when a followed action has a nameless argument |
| ManifestCodec.RegisteredManifestsAreReadable | src/Core/ResourcesManager.cpp:1426-1636 | Whatever binding admits is read back from both compact manifests |
| ManifestCodec.AppendedElementsAreIgnored | src/Core/ResourcesManager.cpp:433-514 | Elements appended to the manifest, a resource or an argument change nothing in what is read |
| ManifestCodec.AppendedElementsOfRemotesAreIgnored | src/Core/ResourcesManager.cpp:516-588 | The same for the consume manifest: elements appended to the document, a remote resource or an argument change nothing, although the decoder is strict |
| ManifestCodec.HardwareTailIsRead | src/Core/ResourcesManager.cpp:1518-1528 | The hardware record is the exception: appending is harmless exactly when all four positions are already there |
| ManifestReading.ManifestBack | src/Core/ResourcesManager.cpp:1426-1482 | The readable manifest says the declarations: name, kind and everything declared of each managed resource, in binding order, can be read back from it |
| ManifestReading.ConsumeManifestBack | src/Core/ResourcesManager.cpp:1552-1592 | The readable consume manifest likewise, with the source each remote resource follows |
| ManifestReading.BoundBack | src/Core/ResourcesManager.cpp:1103-1161 | For what binding admits, what is read back is what was declared |
| ManifestReading.SameManifestsSameDeclarations | src/Core/ResourcesManager.cpp:1426-1592 | Tables with the same two manifests declare the same |
| ManifestWriter.BuildNamedManifest | src/Core/ResourcesManager.cpp:1426-1482 | The loop writes the readable form of every managed resource, in binding order |
| ManifestWriter.BuildPositionalManifest | src/Core/ResourcesManager.cpp:1487-1550 | The loop writes the compact form of every managed resource, in binding order |
| ManifestWriter.BuildNamedConsumeManifest | src/Core/ResourcesManager.cpp:1552-1592 | The loop writes the readable form of every remote resource |
| ManifestWriter.BuildPositionalConsumeManifest | src/Core/ResourcesManager.cpp:1594-1636 | The loop writes the compact form of every remote resource |
| ManifestWriter.ReadRemote | src/Core/ResourcesManager.cpp:530-581 | One remote resource of any kind, or none if any of its fixed positions is malformed |
| ManifestWriter.DecodeManifestInto | src/Core/ResourcesManager.cpp:433-514 | Refuses only what is no manifest of this encoding; unreadable elements are skipped, the caller's document is otherwise left alone |
| ManifestWriter.DecodeConsumeManifestInto | src/Core/ResourcesManager.cpp:516-589 | One malformed remote refuses the whole document |
| Storage.Flash.Rename | src/Core/Storage.cpp:33-37 | The target of a rename is free whenever there is power: an obligation on every caller |
| Storage.Storage.Mount | src/Core/Storage.cpp:40-51 | A failed mount changes no file and is tried again |
| Storage.Storage.RecoverPrevious | src/Core/Storage.cpp:33-37 | Recovery never changes what the file logically holds |
| Storage.Storage.Exists | src/Core/Storage.cpp:53-62 | Asking changes no content; once mounted the answer is whether the file is in place after recovery, and with no step failing whether there is any content |
| Storage.Storage.Read | src/Core/Storage.cpp:64-87 | Success returns what the file logically holds; with no step failing it succeeds exactly for a path under the mount point whose file has content |
| Storage.Storage.WriteFile | src/Core/Storage.cpp:97-109 | The file written is complete, or absent, torn, untouched or whole without the caller being told, whichever step failed |
| Storage.Storage.SetAside | src/Core/Storage.cpp:110-120 | Moving the old file aside keeps the logical content |
| Storage.Storage.Replace | src/Core/Storage.cpp:110-131 | Through every cut the content is wholly the old or wholly the new; true means new and false means old |
| Storage.Storage.Write | src/Core/Storage.cpp:89-132 | Atomic write: at every cut the file holds all of the old or all of the new content; true means new, false with power means old; other files are untouched; with no step failing it succeeds exactly for a path under the mount point |
| Storage.Storage.Act | src/Core/Storage.cpp:33-132 | A save, load, existence check or boot does to the content of its file what the history of that file allows |
| Storage.Storage.Perform | src/Core/Storage.cpp:33-132 | Any sequence of saves, loads and boots over a flash that refuses steps or loses power anywhere is such a history, and leaves one of the contents saved, none older than the last acknowledged |
| Storage.LastAcknowledgedSurvives | src/Core/Storage.cpp:89-132 | In every history the content is one attempted whole, none older than the last acknowledged, or the first if none was acknowledged |
| Storage.LoadsReportWhatSurvives | src/Core/Storage.cpp:64-132 | So is what any successful load of a history reports |
| Settings.RuntimeState.Set | src/Core/RuntimeState.cpp:34-52 | Succeeds exactly for a non-empty key that is known or has room; replaces in place or appends |
| Settings.RuntimeState.Remove | src/Core/RuntimeState.cpp:80-92 | Succeeds exactly when the key is there; the entries after it move down one |
| Settings.RuntimeState.ShiftDown | src/Core/RuntimeState.cpp:86-87 | Every later entry moves one slot down, none before moves |
| Settings.RuntimeState.Clear | src/Core/RuntimeState.cpp:94-98 | The table is empty |
| Settings.RuntimeState.IndexOf | src/Core/RuntimeState.cpp:54-78 | The position of a key, or the end |
| Settings.GetAfterPut | src/Core/RuntimeState.cpp:34-60 | Setting a key changes that key and no other, and keeps keys unique |
| Settings.GetAfterDrop | src/Core/RuntimeState.cpp:72-92 | Removing a key removes that key and no other |
| Settings.PutUndone | src/Core/StateStore.cpp:80-84 | Taking back a set that could not be saved restores the table exactly, order included |
| Settings.PutAllInOrder | src/Core/StateStore.cpp:50-56 | Refilling a table from its own document gives every entry back in order |
| Settings.SaveThenLoad | src/Core/StateStore.cpp:32-66 | A table saved by one boot and loaded by the next comes back entry for entry |
| Settings.StateStore.Save | src/Core/StateStore.cpp:59-66 | Memory is kept; the file is the new table, the old one, or either if power is lost |
| Settings.StateStore.Load | src/Core/StateStore.cpp:32-57 | What each way of loading leaves in memory and on flash |
| Settings.StateStore.Begin | src/Core/StateStore.cpp:11-30 | A load that fails leaves an empty table and the file untouched |
| Settings.StateStore.Set | src/Core/StateStore.cpp:68-85 | The change is in memory and on flash, or in neither unless power is lost |
| Settings.StateStore.Remove | src/Core/StateStore.cpp:118-123 | A failed save is not taken back: memory has lost the key, the file has not |
| Settings.StateStore.Lookup | src/Core/StateStore.cpp:97-116 | Reading changes nothing but a first load |
| Identity.RecordRoundTrip | src/Core/DeviceIdentity.cpp:108-146 | Printing a cleanup record and parsing it loses nothing; only a record of the running name is discarded |
| Identity.AdoptKeepsSound | src/Core/DeviceIdentity.cpp:222-270 | Through every failure and cut of the two writes, whatever is owed stays recorded on flash |
| Identity.AdoptedIff | src/Core/DeviceIdentity.cpp:222-270 | A name is adopted exactly when it is valid, no cleanup is pending and it is the running name or both saves succeed; the device then runs under it at once, unless its address is locked; a refusal changes neither the name nor what is pending |
| Identity.NextBootHasNewName | src/Core/DeviceIdentity.cpp:56-133 | Locked or not, the next boot that reads its file runs under the adopted name and cleans up after the old one |
| Identity.CompleteKeepsSound | src/Core/DeviceIdentity.cpp:292-312 | Reporting one cleanup done never loses the record of the other |
| Identity.BootKeepsSound | src/Core/DeviceIdentity.cpp:56-133 | A boot that reads its file, or loses power doing so, keeps every owed cleanup recorded |
| Identity.StepKeepsSound | src/Core/DeviceIdentity.cpp:56-312 | Every event keeps what is owed recorded |
| Identity.NoCleanupForgotten | src/Core/DeviceIdentity.cpp:108-146 | Over every run of boots, adoptions, reports, other writes, crashes and failed writes, each owed cleanup is on flash and is handed to the next boot that reads it; boots between that cannot read the file are allowed as long as nothing saved from their empty table reaches the flash |
| Identity.NeverOwnName | src/Core/DeviceIdentity.cpp:116-129 | No boot, however it loaded, is handed its own running name to clean |
| Identity.RecordSurvivesBootIff | src/Core/StateStore.cpp:24-57 | A boot that cannot see its file keeps the record if and only if none of the saves it makes from its empty table reaches the flash |
| Identity.BlindSaveForgetsIff | src/Core/StateStore.cpp:59-85 | Another setting saved by such a boot later on forgets the record if and only if that save reaches the flash |
| Identity.TrueReportRecordRemainsIff | src/Core/DeviceIdentity.cpp:292-312 | A report is answered true with the record still on flash if and only if the bit is the last one, the table in memory has lost the record, and the file still has it |
| Identity.TrueReportRecordRemains | src/Core/DeviceIdentity.cpp:292-312 | Devices come to that: whichever cleanup is the last, its first report refused by the flash, the second one is answered true with the record still there |
| Identity.NothingReportedUndone | src/Network/IdentityCleanup.cpp:10-39 | No flag is cleared before its own work succeeded, and none while the device still runs under the old name |
| Identity.DeviceIdentity.PersistPendingCleanup | src/Core/DeviceIdentity.cpp:135-146 | Writes the record, or removes it when nothing is pending |
| Identity.DeviceIdentity.LoadPendingCleanup | src/Core/DeviceIdentity.cpp:108-133 | Takes up a well-formed record of another name; removes any other |
| Identity.DeviceIdentity.Begin | src/Core/DeviceIdentity.cpp:56-106 | Brings the device to the state of a boot over its settings file; once only |
| Identity.DeviceIdentity.LockAddress | src/Core/DeviceIdentity.cpp:217-220 | Later adoptions leave the running name alone |
| Identity.DeviceIdentity.BeginAdoption | src/Core/DeviceIdentity.cpp:222-270 | Record first, then name; each failure undone; a pending cleanup or invalid name refuses |
| Identity.DeviceIdentity.GetPendingIdentityCleanup | src/Core/DeviceIdentity.cpp:278-290 | Hands out the pending cleanup unless the device still runs under that name |
| Identity.DeviceIdentity.MarkIdentityCleanupComplete | src/Core/DeviceIdentity.cpp:292-312 | A flag is cleared in memory and on flash, or put back in memory |
| Identity.ProcessPendingIdentityCleanup | src/Network/IdentityCleanup.cpp:10-39 | One round: the flags cleared and the answer given follow from the work done |
| SchedulerInvariants.AddKeepsSound | src/Core/Scheduler.cpp:152-198 | Adding keeps ids unique and below the next, labels unique in their scope, one target per job and blank free slots |
| SchedulerInvariants.FailedAddChangesNothing | src/Core/Scheduler.cpp:152-198 | A failed add leaves slots and ids as they were; it succeeds exactly when admitted and, if persisted, written |
| SchedulerInvariants.AdmitsIff | src/Core/Scheduler.cpp:152-198 | An add is admitted exactly when there is a free slot, the table with the job in it is sound, and what is to be persisted finds storage up |
| SchedulerInvariants.RemoveIsExact | src/Core/Scheduler.cpp:300-331 | A remove blanks exactly the selected job, or nothing |
| SchedulerInvariants.RemoveFreesLabel | src/Core/Scheduler.cpp:313-321 | A remove by label frees that label in that scope and no other label; with storage working it fails only where there is no such job |
| SchedulerInvariants.RemoveFreesId | src/Core/Scheduler.cpp:323-331 | A remove by id frees that id and no other, and only for a job of the scope |
| SchedulerInvariants.ClearIsAllOrNothing | src/Core/Scheduler.cpp:333-349 | A clear blanks exactly one scope and the file says the same, or memory is unchanged |
| SchedulerInvariants.ClearFreesScope | src/Core/Scheduler.cpp:333-349 | A clear frees every label of its scope and leaves every job of the other; with storage working it does not fail |
| SchedulerInvariants.FailedClearKeepsFileIff | src/Core/Scheduler.cpp:333-349 | After a failed clear the file is as it was if and only if no write was attempted or the write left the very bytes of the old file |
| SchedulerInvariants.FailedClearKeepsSavedFileIff | src/Core/Scheduler.cpp:454-482 | Where file and memory agreed: if and only if storage was not in use or the old file was left in place |
| SchedulerInvariants.FailedClearTearsFile | src/Core/Scheduler.cpp:333-349 | A failed write of a clear leaves the file torn although the comment on clear promises it unchanged |
| SchedulerInvariants.LoadKeepsSound | src/Core/Scheduler.cpp:484-543 | Any file, into any sound table, leaves a sound table |
| SchedulerInvariants.FireKeepsSound | src/Core/Scheduler.cpp:404-440 | One turn of the tick keeps the table sound |
| SchedulerInvariants.ApplyKeepsSound | src/Core/Scheduler.cpp:443-449 | Whatever is done to the table while it is unlocked keeps it sound |
| SchedulerInvariants.ScheduleKeepsSound | src/Core/Scheduler.cpp:200-241 | Every schedule form hands over a timed request and keeps the table sound |
| SchedulerInvariants.SaveThenLoad | src/Core/Scheduler.cpp:459-543 | Loading what a sound table wrote, into an empty table, restores exactly its persisted jobs, ids and all |
| SchedulerInvariants.PersistedJobsAre | src/Core/Scheduler.cpp:146-150 | The restored jobs are those active on the wall clock that run a command, no more and no fewer |
| SchedulerLateLoad.NoneAddedMeanwhileRuns | src/Core/Scheduler.cpp:392-452 | Whatever happens meanwhile, storage coming up included, a tick runs only jobs that are due and no younger than the newest at its start, none of them added while it ran |
| SchedulerLateLoad.TickRunsOnceWithoutHazard | src/Core/Scheduler.cpp:392-543 | A tick runs each id at most once, whatever happens meanwhile, when storage is up or the file holds no due record under the id of a due job |
| SchedulerLateLoad.IdsRunOnceIff | src/Core/Scheduler.cpp:392-543 | While storage is down: every tick runs each id at most once under every plan of callbacks if and only if the file holds no such record |
| SchedulerLateLoad.ReachableIdsRunOnceIff | src/Core/Scheduler.cpp:392-543 | The same for every table that any life of the device leads to from a file that saves have left |
| SchedulerLateLoad.LateLoadReusesId | src/Core/Scheduler.cpp:484-543 | A table and file for which there is such a plan |
| SchedulerRuns.QuietTickRunsAllDue | src/Core/Scheduler.cpp:392-452 | Left alone and with storage working, a tick runs every due job |
| SchedulerTiming.WrappedComparisonIsRight | src/Core/Scheduler.cpp:421-424 | With true time unbounded and the clock modulo 2^32: a deadline up to the longest interval ahead is not found passed, one up to half the range back is |
| SchedulerTiming.ScheduledDelayIsKept | src/Core/Scheduler.cpp:200-241 | Over any run of ticks and operations that follows a delayed or recurring form, no tick before the delay runs the job it created |
| SchedulerTiming.RunsAreAnIntervalApart | src/Core/Scheduler.cpp:392-433 | Over any run each tick runs a recurring monotonic job at most once, and any two ticks that run it are at least its interval apart in true time |
| SchedulerTiming.ScheduledDelayFires | src/Core/Scheduler.cpp:200-241 | The first tick at or after the delay, if within half the range of the counter and the job still there, runs it |
| SchedulerWallTiming.ScheduledDateIsKept | src/Core/Scheduler.cpp:200-241 | Over any run that follows, with wall readings that do not go back, no tick runs a dated or recurring wall job before its date, nor while the clock is unset; the date of one scheduled with the clock unset is an interval after the first reading |
| SchedulerWallTiming.ScheduledDateRings | src/Core/Scheduler.cpp:392-440 | The first tick to read the date or more runs the job if it was left alone |
| SchedulerWallTiming.RunsAreSecondsApart | src/Core/Scheduler.cpp:392-433 | Each tick runs the job at most once; any two ticks that run a recurring one read at least its interval apart, and a dated one is run by one tick at most |
| SchedulerRuns.BooksAreTrue | src/Core/Scheduler.cpp:392-452 | Counting the runs of a command alongside a tick counts exactly what the tick ran |
| SchedulerRuns.LifeKeepsBalance | src/Core/Scheduler.cpp:426-449 | Every event keeps: a persisted one-shot that has run is in neither memory nor file |
| SchedulerRuns.OneShotRunsAtMostOnce | src/Core/Scheduler.cpp:426-543 | Over any life of reboots, crashes, failed saves, ticks and callbacks, a persisted one-shot added once runs at most once and no later file holds it |
| SchedulerRuns.ReachableTablesAreSound | src/Core/Scheduler.cpp:146-543 | Whatever the first file holds and whatever happens, every reachable table is sound |
| Scheduler.Scheduler.WriteJobs | src/Core/Scheduler.cpp:454-482 | The file becomes the records of the persisted jobs, or what a failed rewrite leaves |
| Scheduler.Scheduler.Add | src/Core/Scheduler.cpp:152-198 | The table is that of an add: first free slot, next id, both given back when the save fails |
| Scheduler.Scheduler.Schedule | src/Core/Scheduler.cpp:200-241 | Each form computes its deadline or refuses |
| Scheduler.Scheduler.RemoveJob | src/Core/Scheduler.cpp:300-311 | A failed save puts the job back |
| Scheduler.Scheduler.Remove | src/Core/Scheduler.cpp:313-331 | The first job selected by label or id within a scope |
| Scheduler.Scheduler.Clear | src/Core/Scheduler.cpp:333-349 | The file without the scope first, memory only if that worked |
| Scheduler.Scheduler.Mount | src/Core/Scheduler.cpp:484-543 | Storage coming up loads the file into whatever table there is; a file that is torn or cannot be read brings nothing |
| Scheduler.Scheduler.LoadRecord | src/Core/Scheduler.cpp:497-541 | One record is placed, renumbered or skipped |
| Scheduler.Scheduler.Fire | src/Core/Scheduler.cpp:404-440 | One slot: the job to run is off the table, or rescheduled, before it runs |
| Scheduler.Scheduler.Tick | src/Core/Scheduler.cpp:392-452 | Storage not yet up is tried first; then the slots run in order with the table unlocked during each run; a tick inside a tick does nothing |
| CommandScanner.ParseNightMareMessage2 | src/Core/NightMareComand.cpp:211-340 | The scanning loop reads the grammar, for every line of any length |
| CommandScanner.StoreToken | src/Core/NightMareComand.cpp:164-179 | A token is filed in its slot; the seventh is refused |
| CommandScanner.ReadFence | src/Core/NightMareComand.cpp:253-293 | Content is copied up to the first run of exactly the opening length |
| CommandScanner.CountTicks | src/Core/NightMareComand.cpp:253-293 | The length of a run of backticks |
| CommandScanner.ScanFence | src/Core/NightMareComand.cpp:253-293 | A fence is passed over as the grammar does, or is unterminated |
| CommandScanner.CloseLine | src/Core/NightMareComand.cpp:318-340 | What the end of the line makes of the scan, complaints included |
| CommandScanner.FenceClosesAtFirstRun | src/Core/NightMareComand.cpp:191-210 | A fence of N backticks closes at the first maximal run of exactly N, and only there |
| CommandScanner.LexBare | src/Core/NightMareComand.cpp:303-316 | Bare text, backslashes and case included, is read as it stands |
| CommandScanner.LexQuoted | src/Core/NightMareComand.cpp:191-210 | A quoted token, trailing backslashes after the closing quote, is read back as it was |
| CommandScanner.LexFenced | src/Core/NightMareComand.cpp:253-293 | Content with no run of exactly N backticks and none at an end is read back verbatim from a fence of N |
| CommandScanner.SectionsTake | src/Core/NightMareComand.cpp:211-316 | Adjacent bare, quoted and fenced sections are read into one token |
| CommandScanner.PrintThenParse | src/Core/NightMareComand.cpp:191-340 | Printing any tokens, each of any number of adjacent bare, quoted and fenced sections, and scanning the line gives the tokens back, or says which limit they break |
| CommandScanner.RoundTrip | src/Core/NightMareComand.cpp:191-340 | Within the limits all arguments, their case, their count and the upper-cased command come back, in whatever of the three styles they are written |
| CommandScanner.OpenQuoteIsReported | src/Core/NightMareComand.cpp:318-340 | A quote that is never closed is reported, with the tokens before it filed |
| CommandScanner.OpenFenceIsReported | src/Core/NightMareComand.cpp:253-293 | So is a fence of n backticks with no run of exactly n after it |
| CommandScanner.UpperIs | src/Core/NightMareComand.cpp:336-338 | Upper-casing turns each small letter into its capital and leaves everything else |
| GatewayRecovery.AtMostOneBatch | src/Gateway/GatewayRecovery.cpp:97-136 | Between two online announcements at most one batch of wills is published |
| GatewayRecovery.WillsAreThoseLeft | src/Gateway/GatewayRecovery.cpp:65-96 | The wills of a snapshot are those of its connected clients with a well-formed will, each once and in order |
| GatewayRecovery.NoticeIff | src/Gateway/GatewayRecovery.cpp:36-64 | Which topic and document are an online, an offline or a snapshot notice, of which gateway and generation, and no other is |
| GatewayState.StatusIsRead | src/Gateway/GatewayState.cpp:31-52 | A status as a gateway writes it is read as the notice it gives |
| GatewayState.ClientsAreRead | src/Gateway/GatewayState.cpp:126-149 | A client list as a gateway writes it is read as the wills its connected clients left, byte for byte |
| GatewayState.LostGatewayIsRecovered | src/Gateway/GatewayRecovery.cpp:97-136 | A gateway that came online, listed its clients and went offline has exactly the wills of its last list published, once, by any gateway that heard it, whatever that one knew before |
| GatewayRecovery.BatchIsOfTheGenerationThatWent | src/Gateway/GatewayRecovery.cpp:97-136 | A batch comes from the latest snapshot, of a generation reported offline or without a name, never of one superseded by another named online |
| GatewayRecovery.UnreportedIsPublishedIff | src/Gateway/GatewayRecovery.cpp:97-108 | A snapshot publishes the wills of a gateway with no offline report if and only if snapshot and gateway are both without a generation and nothing was published yet |
| GatewayRecovery.UnreportedBatchIff | src/Gateway/GatewayRecovery.cpp:97-136 | Over any run a batch is published for a generation never reported offline if and only if a nameless snapshot comes while, since the last online, only named snapshots have come and that online had no name |
| GatewayRecovery.OrderDoesNotMatter | src/Gateway/GatewayRecovery.cpp:97-136 | Offline then snapshot equals snapshot then offline, in state and in batches, if and only if no older snapshot of that generation with other wills is waiting |
| GatewayRecovery.OnlyItsGateway | src/Gateway/GatewayRecovery.cpp:27-36 | A message changes what is known of its own gateway and of no other |
| GatewayRecovery.GatewaysAreIndependent | src/Gateway/GatewayRecovery.cpp:27-138 | Over any run each gateway is where its own notices alone would have brought it |
| GatewayRecovery.GatewayRecovery.GatewayOf | src/Gateway/GatewayRecovery.cpp:27-34 | The entry of a gateway, made when it is first heard of |
| GatewayRecovery.GatewayRecovery.ReadWills | src/Gateway/GatewayRecovery.cpp:65-96 | The wills of connected clients, in order, malformed ones skipped |
| GatewayRecovery.GatewayRecovery.Consume | src/Gateway/GatewayRecovery.cpp:36-138 | One message moves the state machine one step; the caller's list is replaced only by a recovery |

## Left out

- ArduinoJson, cJSON and MessagePack bytes: a document is a tree, and a text that cannot be parsed is no tree.
- Running out of memory otherwise than for the workspace of the validation, and document overflow.
- ManifestCodec.CompactManifestIsReadable: the decoder's conversion of a text that spells a number is taken as zero, which no compact manifest contains.
- Texts and paths of diagnostics: proved are whether there are any, their bound, their order of arrival and that none repeats.
- HardwareValidation.ValidateHwConfig: an array and its count are one sequence here, so a count with a null pointer, which is a finding of its own, cannot be written down. Ids are compared by content, so two null ids count as an overlap where the source would pass a null pointer to a string comparison; earlier checks exclude both.
- HardwareValidation.ValidateIds: the finding for a count with a null pointer, for the same reason.
- HardwareValidation.ValidateMemberShape: the findings for counts with null pointers, for the same reason.
- Storage.Storage.Mount: formatting the flash after a failed mount, which loses every file; here each survives.
- Storage.Storage.Read: the size limit of a read, and what is in the caller's buffer after a failed one.
- Storage.Storage.Perform: other files of the same flash are left alone by each write, but a file named like another's backup or temporary is not considered. The remove, rename, info, format and list operations.
- Settings.StateStore.Set: stores that are not persistent, setting several keys at once and saving a default on reading.
- Identity.DeviceIdentity.Begin: a failure to read the hardware address or to apply a timezone, and setting a timezone later.
- Identity.RecordRoundTrip: the saturation of the C number parser, which no record reaches.
- Identity.NoCleanupForgotten: assumes that while a cleanup is owed nothing saved from a table that did not read its file reaches the flash; `Identity.RecordSurvivesBootIff` and `Identity.BlindSaveForgetsIff` say that this is exactly what it takes.
- Identity.ProcessPendingIdentityCleanup: withdrawing the resources and publishing the status are outcomes.
- SchedulerLateLoad.IdsRunOnceIff: assumes a file as saves leave it and as many ids to spare as there are slots, so that the plan that runs an id twice can fill them; `SchedulerLateLoad.TickRunsOnceWithoutHazard` needs neither.
- SchedulerTiming.ScheduledDelayFires: assumes that nobody removes the job or clears its scope before that tick, and that power lasts.
- SchedulerWallTiming.ScheduledDateRings: assumes that nobody removes the job or clears its scope before that tick, that power lasts, and, for a persisted one-shot, that no write of the file fails.
- SchedulerWallTiming.RunsAreSecondsApart: wall readings neither go back nor come within an interval of the end of the 32-bit range, and there is no reboot between; a job loaded from the file keeps the deadline it was saved with.
- Scheduler.Scheduler.Add: an attempt to bring storage up on first use is a `Mount` before it, which may come at any moment, even during a tick; so for removing, clearing and scheduling.
- Scheduler.Scheduler.Tick: the thread that calls it, its mutex and the run mode.
- Listing jobs, and the names the numbered timeouts are given.
- ResourcesManager.ResourcesManager.BindResource: locking the device address, publishing, withdrawing and announcing values, and reading a resource's stored settings, which is an outcome.
- ResourcesManager.ResourcesManager.UnbindResource: withdrawing what is retained and removing the stored source record.
- ResourcesManager.ResourcesManager.NotifySourceChanged: withdrawing the resources that depend on this one and publishing the consume manifest.
- ResourcesManager.ResourcesManager.ConfigureRemoteSource: writing the source record is an outcome; sources stored by an earlier boot are not loaded, and nothing is published.
- A registry without a subscriber: it behaves as one whose subscriber is disconnected.
- A device name that changes while resources are bound.
- ResourcesManager.ResourcesManager.HandleIngressMessage: what a resource or a handler does with a message delivered to it.
- CommandScanner.PrintThenParse: a section after one that ends in a backslash is written bare, and no two fences are adjacent; otherwise the backslash or the longer run of backticks would be read differently.
- CommandScanner.ParseNightMareMessage2: a failed reservation of memory for the token.
- GatewayState.ClientsAreRead: the name and address of a client are written but not read; the network document of a gateway, and when its documents are published, are not modelled.
- The older command parser, the console commands, network routing, web sockets, Base64, ESP-NOW, MQTT clients, displays and updates.
