# Custom Interchange import plugin: a Dafny model

This project models the decision and string logic of a custom Unreal Engine Interchange
import plugin and of its Python automation layer. The model covers these parts:

- **Static-mesh pipeline** (`StaticMeshPipeline`). Scene nodes labelled `Edge###_V0` /
  `Edge###_V1` are classified and paired by edge number, with the last writer winning
  each slot. The complete pairs are sorted (`KeySort`) and renumbered 0, 1, 2, ….
  Their transforms are then registered under `EdgeIndex_<n>_V0/_V1`, and a
  `WedgeCount` attribute follows.
- **Foo translator** (`FooTranslator`). This covers the supported-format list, the
  translate step that adds one DemoObject node for an existing `.foo` file, and the
  payload, which is the source file's text.
- **DemoObject pipeline** (`DemoObjectPipeline`). It collects the translated DemoObject
  nodes and creates or reuses one factory node per node, linked both ways. A
  standalone single-object import gets a name override.
- **DemoObject factory** (`DemoObjectFactory`). This covers the begin, async and setup
  phases and the `bSkipImport` flag, which only ever rises.
- **Extended translator and its manager** (`FooTranslatorExtended`). This covers:
  - extension matching against `"ext;description"` format strings;
  - ordered file validation;
  - an options map with four defaults, merge and reset, whose keys compare ignoring case;
  - counters that keep count = successes + failures;
  - log lines, translation from scripts, and batch translation.
- **Case-insensitive option map** (`CaseMap`). The options are a `TMap<FString, FString>`,
  and FString compares ignoring case. `TMap::Add` therefore replaces an entry whose key
  equals the new one up to case, and the new spelling wins. The module proves what adding
  a sequence of pairs leaves behind, and that adding the entries of a map gives the same
  result in any order.
- **Python wrapper** (`PyTranslators`, from `core/translators.py`). This covers
  `import_file`, the mock and engine paths of `can_translate_file` and `validate_file`,
  options, statistics and `batch_translate`.
- **Automation manager** (`AutomationManager`, from `automation/manager.py`). This covers:
  - `process_single_file` with its rule chain;
  - quality checks and file patterns;
  - the bounded history of processing times;
  - the watch-folder list, whose paths stay unique;
  - `batch_import_files`.

The model has the following general shape:

- Everything is functional: immutable datatypes, pure functions, and small methods with
  loop invariants where the source loops.
- Engine and library primitives are function-valued fields of the `Host` records
  `EnginePaths` and `PyOs`, so the model gives them no behaviour of its own:
  - `FPaths` normalize, base name, extension and existence; file size; `LoadFileToString`;
  - `os.path` exists, abspath, basename and splitext; `os.path.getsize`; `fnmatch`.
- The following primitives are parameters: `FCString::Atoi`, `BuildFactoryNodeUid`,
  global transforms, object casts, `TryLoad` and `NewObject` results.
- Whatever the engine answers during one scripted translation arrives as an
  `EngineOutcome`. That covers source-data and container creation, elapsed time and
  the import's outcome.
- A node container is an append-only sequence. A node's identity is its position, and
  uid lookup finds the first node with that uid.
- The clock (`datetime.now`, `time.time`) arrives as parameters.

## Model

| member | source | states |
|---|---|---|
| KeySort.Sort | CustomPipelines/Private/CustomStaticMeshPipeline.cpp:56 | The wedge map's distinct edge numbers come out strictly ascending, with the same elements and the same count. |
| StaticMeshPipeline.ClassifyLabel | CustomPipelines/Private/CustomStaticMeshPipeline.cpp:34-40 | A label yields a slot exactly when it is an edge label. The slot's edge number is `Atoi` of characters 4-6, and the slot is V0 exactly when the last character is '0'; any other last character gives V1. |
| StaticMeshPipeline.EdgeLabelShape | CustomPipelines/Private/CustomStaticMeshPipeline.cpp:35-37 | The three-part edge-label test holds exactly when the label is ten characters long, starts with "edge" in any case and has "_v" (any case) at positions 7-8 and at none of positions 4-6. |
| StaticMeshPipeline.ClassifyExampleV0 | CustomPipelines/Private/CustomStaticMeshPipeline.cpp:35-40 | "Edge001_V0" names the V0 slot of edge Atoi("001"). |
| StaticMeshPipeline.ClassifyExampleLowerCase | CustomPipelines/Private/CustomStaticMeshPipeline.cpp:35-40 | Case is ignored: "edge012_v1" names the V1 slot of edge Atoi("012"). |
| StaticMeshPipeline.ClassifyEdgeLabel | CustomPipelines/Private/CustomStaticMeshPipeline.cpp:35-40 | Every label "Edge" + three characters without an underscore + "_V" + one character is an edge label. Its edge number is Atoi of the three characters, digits or not, and it names the V0 slot exactly when the last character is '0'. |
| StaticMeshPipeline.ClassifyExampleEarlySeparator | CustomPipelines/Private/CustomStaticMeshPipeline.cpp:37 | An earlier "_V" ("Edge_V1_V0") moves the first match off index 7, so the label is ignored. |
| StaticMeshPipeline.RecordNode | CustomPipelines/Private/CustomStaticMeshPipeline.cpp:41-48 | FindOrAdd plus slot store: the key set gains the edge number, and the named slot holds the new node. The other slot keeps its previous value, or null for a new entry, and every other entry is unchanged. |
| StaticMeshPipeline.CollectWedges | CustomPipelines/Private/CustomStaticMeshPipeline.cpp:31-51 | The walk over the scene nodes leaves a well-formed wedge map: every key is listed once, and exactly the listed keys have entries. |
| StaticMeshPipeline.LastHitIndex | CustomPipelines/Private/CustomStaticMeshPipeline.cpp:32-48 | Reference definition of a slot's last writer: it gives the last position whose label names the slot, or None when no label does. |
| StaticMeshPipeline.CollectWedgesEntries | CustomPipelines/Private/CustomStaticMeshPipeline.cpp:41-48 | An edge number has an entry exactly when some label names one of its two slots. |
| StaticMeshPipeline.CollectWedgesLastWriter | CustomPipelines/Private/CustomStaticMeshPipeline.cpp:41-48 | Last writer wins: each slot of an entry holds the last node whose label names it, or null when none does. |
| StaticMeshPipeline.SurvivorsMembers | CustomPipelines/Private/CustomStaticMeshPipeline.cpp:58-76 | A wedge survives exactly when its edge is listed, both slots are filled and both transforms are available; it carries those two transforms. |
| StaticMeshPipeline.SurvivorsAscending | CustomPipelines/Private/CustomStaticMeshPipeline.cpp:56-76 | Over ascending keys, the survivors come out in strictly ascending edge order. |
| StaticMeshPipeline.NumberedWritesAt | CustomPipelines/Private/CustomStaticMeshPipeline.cpp:77-81 | Surviving wedge j is registered under number base + j, with the V0 key before the V1 key: two writes per wedge. |
| StaticMeshPipeline.EmitWedgesNumbersSurvivors | CustomPipelines/Private/CustomStaticMeshPipeline.cpp:57-82 | The loop as written numbers exactly the survivors, contiguously from 0; a skipped wedge consumes no number. The final counter equals the number of survivors. |
| StaticMeshPipeline.BuildWedgeKeyInjective | CustomPipelines/Private/CustomStaticMeshPipeline.cpp:151-158 | Distinct (index, slot) pairs give distinct "EdgeIndex_<n>_V0/_V1" keys. |
| StaticMeshPipeline.WedgeKeyIsNotCountKey | CustomPipelines/Private/CustomStaticMeshPipeline.cpp:146-158 | No wedge key equals "WedgeCount". |
| StaticMeshPipeline.ExecutePipeline | CustomPipelines/Private/CustomStaticMeshPipeline.cpp:19-89 | Nothing is registered unless the container exists, the wedge flag is on and there is exactly one static-mesh factory node. Otherwise the registrations are the numbered writes of the emitted wedges, followed by "WedgeCount" only when at least one was emitted. |
| StaticMeshPipeline.EmittedWedgesSpec | CustomPipelines/Private/CustomStaticMeshPipeline.cpp:31-82 | A record is emitted exactly when the last node naming its V0 slot and the last node naming its V1 slot both exist and carry its transforms. Records appear in strictly ascending edge order. |
| StaticMeshPipeline.NumberedWriteKey | CustomPipelines/Private/CustomStaticMeshPipeline.cpp:79-80 | Write a registers wedge a/2, as V0 when a is even. |
| StaticMeshPipeline.WriteKeysDistinct | CustomPipelines/Private/CustomStaticMeshPipeline.cpp:77-86 | The pipeline never registers the same key twice. |
| StaticMeshPipeline.WriteKeysNamed | CustomPipelines/Private/CustomStaticMeshPipeline.cpp:77-86 | Every key registered is "WedgeCount" or the slot key of an emitted wedge. |
| StaticMeshPipeline.RecordedWedge | CustomPipelines/Private/CustomStaticMeshPipeline.cpp:77-81 | Starting from no attributes, wedge j's two transforms end up under its V0 and V1 keys; no later write overwrites them. |
| StaticMeshPipeline.RecordedCount | CustomPipelines/Private/CustomStaticMeshPipeline.cpp:83-86 | "WedgeCount" is recorded exactly when at least one wedge was emitted, and its value is the number emitted. |
| StaticMeshPipeline.RecordedKeysNamed | CustomPipelines/Private/CustomStaticMeshPipeline.cpp:77-86 | Every recorded key is either "WedgeCount" or the key of some emitted wedge number and slot. |
| StaticMeshPipeline.RecordedAttributes | CustomPipelines/Private/CustomStaticMeshPipeline.cpp:77-86 | Starting from no attributes, the result holds wedge j's two transforms under its two keys and holds "WedgeCount" exactly when a wedge was emitted, with the count as its value. It holds no other key. |
| FooTranslator.SupportedFormats | CustomImport/Private/CustomFooTranslator.cpp:21-31 | The list is exactly ["foo;FOO my game format"] when the feature flag or automation testing is on, and empty otherwise. |
| FooTranslator.TranslatedNode | CustomImport/Private/CustomFooTranslator.cpp:48-57 | The translated node's uid and payload key are the normalized filename, and its label is the base filename. It is a TranslatedAsset DemoObject node. |
| FooTranslator.Translate | CustomImport/Private/CustomFooTranslator.cpp:33-62 | Success holds exactly when the normalized file exists. Failure leaves the container alone, and success appends that file's translated node. |
| FooTranslator.TranslateAddsOneDemoObject | CustomImport/Private/CustomFooTranslator.cpp:48-61 | A successful translation adds exactly one node at the end and changes nothing else. The new node is a DemoObject node whose payload key is its own uid, and the normalized filename becomes a valid uid. |
| FooTranslator.DemoObjectPayloadData | CustomImport/Private/CustomFooTranslator.cpp:64-70 | The payload is always set. It holds the translator's source file text, or "" when loading fails. |
| FooTranslator.PayloadIgnoresKey | CustomImport/Private/CustomFooTranslator.cpp:64-70 | The payload key asked for never changes the payload. |
| DemoObjectPipeline.CollectDemoObjectNodes | CustomPipelines/Private/CustomDemoObjectPipeline.cpp:51-64 | Exactly the TranslatedAsset DemoObject nodes are collected, in iteration order. |
| DemoObjectPipeline.FactoryNodeFor | CustomPipelines/Private/CustomDemoObjectPipeline.cpp:111-123 | A new factory node carries the derived uid, the source's label, the FactoryData type, the payload key and the pipeline's four settings. It has no targets yet. |
| DemoObjectPipeline.CreateFactoryNode | CustomPipelines/Private/CustomDemoObjectPipeline.cpp:89-133 | When the derived uid is already present, the first node carrying it is returned if it is a DemoObject factory node, and null otherwise; the container is untouched. A missing payload key gives null and no change. Otherwise a factory node is appended at the end and returned; only that node is added, existing nodes keep their identity, and afterwards the derived uid is valid. |
| DemoObjectPipeline.CreateFactoryNodeLinks | CustomPipelines/Private/CustomDemoObjectPipeline.cpp:118-129 | A newly created factory node targets exactly its translated node and carries its payload key and the settings. The translated node's last target is the factory node. |
| DemoObjectPipeline.CreateFactoryNodeIdempotent | CustomPipelines/Private/CustomDemoObjectPipeline.cpp:92-102 | A second creation for the same node finds the first factory node and returns the same result and container. |
| DemoObjectPipeline.CreateAll | CustomPipelines/Private/CustomDemoObjectPipeline.cpp:68-72 | The creation loop only adds factory nodes, and every collected node gets a factory uid when it had one or has a payload key. |
| DemoObjectPipeline.OverrideAssetName | CustomPipelines/Private/CustomDemoObjectPipeline.cpp:74-78 | The override name is empty outside a standalone import. Otherwise it is DestinationName, falling back to AssetName when that is empty. |
| DemoObjectPipeline.Rename | CustomPipelines/Private/CustomDemoObjectPipeline.cpp:81-85 | The factory node gets the name as both asset name and display label, and no other node changes. |
| DemoObjectPipeline.OutcomePlain | CustomPipelines/Private/CustomDemoObjectPipeline.cpp:66-72 | After creation, original nodes keep uid, class, type and payload key, added nodes are factory nodes, and every collected node with a payload key has its factory uid present. |
| DemoObjectPipeline.RenameKeepsOutcome | CustomPipelines/Private/CustomDemoObjectPipeline.cpp:74-85 | Renaming any one node of a creation outcome keeps it an outcome, and the renamed node carries the override name as asset name and display label. |
| DemoObjectPipeline.CreateLoop | CustomPipelines/Private/CustomDemoObjectPipeline.cpp:66-72 | The loop, run one creation at a time on the container the previous one left, computes the recursive definition of the creation sequence. The result extends the original container. |
| DemoObjectPipeline.OutcomeRenamed | CustomPipelines/Private/CustomDemoObjectPipeline.cpp:74-85 | The same outcome holds after the last factory node is renamed, and the renamed node carries the override name. |
| DemoObjectPipeline.ExecutePipeline | CustomPipelines/Private/CustomDemoObjectPipeline.cpp:35-87 | A null container stays null, and with bImportDemoObjects off the container is untouched. Otherwise the result is the container the creation loop leaves, and the creation outcome holds. The last factory node returned is renamed to the override name exactly when the import is standalone, one node was collected, the name is non-empty and a factory node was returned; no other node is renamed. |
| DemoObjectFactory.FooFactoryTranslator | CustomImport/Public/CustomFooTranslator.h:23 | The Foo translator reports no asset type and implements the payload interface. |
| DemoObjectFactory.BeginImportAsset | CustomImport/Private/CustomDemoObjectFactory.cpp:42-110 | The skip flag rises exactly when the asset is skipped, every reported error skips, and an object is returned exactly when there is no error. A missing or wrong-type node reports AssetNodeNull. A factory node whose class is not a DemoObject reports NodeClassMismatch. With no existing asset the new object is returned; an existing DemoObject is returned and is skipped unless this is a reimport or the translator is Textures; an existing non-DemoObject is an error. |
| DemoObjectFactory.FooImportKeepsExistingAsset | CustomImport/Private/CustomDemoObjectFactory.cpp:90-100 | With the Foo translator, a first import over an existing DemoObject returns it and skips it. |
| DemoObjectFactory.ImportAssetAsync | CustomImport/Private/CustomDemoObjectFactory.cpp:113-209 | The result's skip flag mirrors bSkipImport, and a skipped asset is returned without writing. A missing node reports AssetNodeNull and a class mismatch reports NodeClassMismatch. SourceData is written exactly when every check passes: node, class, type, payload key, interface, payload set, existing DemoObject. It then receives the payload text. When not skipping, any failed check returns no object and reports an error. |
| DemoObjectFactory.FooImportWritesFileText | CustomImport/Private/CustomDemoObjectFactory.cpp:177-205 | With the Foo translator, the asset's SourceData becomes the source file's text. |
| DemoObjectFactory.SetupObject | CustomImport/Private/CustomDemoObjectFactory.cpp:212-257 | Nothing happens when skipping or when the object is not a DemoObject. Otherwise a first import applies the factory node's settings, a reimport runs the reimport strategy, and import data is refreshed when source data is present. |
| DemoObjectFactory.SkipImportSticky | CustomImport/Private/CustomDemoObjectFactory.cpp:48-100 | Once raised, bSkipImport stays raised through any sequence of phases. |
| DemoObjectFactory.SkippedAssetUntouched | CustomImport/Private/CustomDemoObjectFactory.cpp:149-221 | After a skip, no later async phase writes SourceData and no later setup touches the asset. |
| CaseMap.Add | extend_python/cpp_modifications/CustomFooTranslator_Extended.cpp:253-256 | The added entry is present under the given spelling. Every entry whose key differs from it other than in case is kept, nothing else is present, and a map without case clashes stays without them. |
| CaseMap.Merge | extend_python/cpp_modifications/CustomFooTranslator_Extended.cpp:250-259 | Every given entry is present. An entry of the old map is kept exactly when no given key equals it up to case. Nothing else is present, and two maps without case clashes merge into one without them. |
| CaseMap.AddItemsLastWins | extend_python/python_api/core/translators.py:219-221 | Adding pairs one by one keeps each pair that no later pair matches up to case, under its own spelling and with its value. |
| CaseMap.AddItemsOnlyLast | extend_python/python_api/core/translators.py:219-221 | Every key of the result is the key of a pair that no later pair matches up to case. |
| CaseMap.AddItemsCaseUnique | extend_python/python_api/core/translators.py:219-221 | Adding pairs keeps a map free of keys that differ only in case. |
| CaseMap.AddItemsHasKey | extend_python/python_api/core/translators.py:219-221 | The result has a key equal to k up to case exactly when some pair's key does. |
| CaseMap.AddItemsInAnyOrder | extend_python/cpp_modifications/CustomFooTranslator_Extended.cpp:253-256 | Adding the entries of a map without case clashes one by one, in any order that lists each exactly once, gives the merge. |
| FooTranslatorExtended.LevelOf | extend_python/cpp_modifications/CustomFooTranslator_Extended.cpp:339-351 | An event type equal to "Error" ignoring case maps to the error level, and one equal to "Warning" ignoring case maps to the warning level, because FString's == ignores case. Any other event type is plain log. |
| FooTranslatorExtended.LogTranslationEvent | extend_python/cpp_modifications/CustomFooTranslator_Extended.cpp:330-352 | The line starts with "[Type] Message" and has " (File: path)" appended exactly when the path is non-empty. |
| FooTranslatorExtended.DefaultOptionsContents | extend_python/cpp_modifications/CustomFooTranslator_Extended.cpp:355-361 | The defaults are exactly the four keys with values true, true, false, false. |
| FooTranslatorExtended.DefaultOptionsCaseUnique | extend_python/cpp_modifications/CustomFooTranslator_Extended.cpp:355-361 | No two default option names differ only in case, so the defaults are a valid TMap. |
| FooTranslatorExtended.UpdateStatistics | extend_python/cpp_modifications/CustomFooTranslator_Extended.cpp:364-377 | The count gains one, the time is added, and exactly one of successes and failures gains one. The update preserves count = successes + failures. |
| FooTranslatorExtended.NewTranslator | extend_python/cpp_modifications/CustomFooTranslator_Extended.cpp:23-30 | A new translator has the default options, zero counters and no source data. |
| FooTranslatorExtended.SetTranslationOptions | extend_python/cpp_modifications/CustomFooTranslator_Extended.cpp:250-259 | Each given entry is present afterwards under the given spelling. An old option whose name no given name equals up to case keeps its value. Nothing else is present, so an old spelling that differs only in case is gone. No key clash up to case is introduced, and the counters are untouched. |
| FooTranslatorExtended.SetTranslationOptionsInAnyOrder | extend_python/cpp_modifications/CustomFooTranslator_Extended.cpp:253-256 | The loop of TMap::Add calls over the given map, in whatever order it iterates, ends with exactly the merged options. |
| FooTranslatorExtended.ResetTranslationOptions | extend_python/cpp_modifications/CustomFooTranslator_Extended.cpp:268-273 | The options become exactly the defaults. |
| FooTranslatorExtended.SetTranslationOptionsIdempotent | extend_python/cpp_modifications/CustomFooTranslator_Extended.cpp:250-256 | Setting the same options twice equals setting them once. |
| FooTranslatorExtended.ResetForgetsOptions | extend_python/cpp_modifications/CustomFooTranslator_Extended.cpp:268-271 | A reset forgets every option set before it. |
| FooTranslatorExtended.AnyFormatMatches | extend_python/cpp_modifications/CustomFooTranslator_Extended.cpp:183-195 | Some format's lower-cased text before its first ';' equals the extension. A format without ';' never matches. |
| FooTranslatorExtended.FooFormatExtension | extend_python/cpp_modifications/CustomFooTranslator_Extended.cpp:38 | The Foo format's extension part is "foo". |
| FooTranslatorExtended.CanTranslateFileIffFoo | extend_python/cpp_modifications/CustomFooTranslator_Extended.cpp:176-196 | A file can be translated exactly when the format list is on and its extension is "foo" in any case. |
| FooTranslatorExtended.FindBestTranslatorForFile | extend_python/cpp_modifications/CustomFooTranslator_Extended.cpp:396-405 | The result is "CustomFooTranslatorExtended" when the file can be translated, and "" otherwise. |
| FooTranslatorExtended.ValidateFileForTranslation | extend_python/cpp_modifications/CustomFooTranslator_Extended.cpp:213-247 | The checks run in order (existence, format, size > 0, readability), and the message is the first failing check's. Success happens exactly when all pass, and then the message is empty. |
| FooTranslatorExtended.Translate | extend_python/cpp_modifications/CustomFooTranslator_Extended.cpp:50-70 | The translation matches the base translation on the SourceData file, and exactly one statistics update records its outcome. Exactly one log line is written, at error level exactly on failure. |
| FooTranslatorExtended.ExtendedPayloadData | extend_python/cpp_modifications/CustomFooTranslator_Extended.cpp:73-85 | The payload is set exactly when the file named by the key loads, and then it holds that text. |
| FooTranslatorExtended.ExtendedPayloadAgreesWithBase | extend_python/cpp_modifications/CustomFooTranslator_Extended.cpp:73-85 | For a readable source file asked for by its own name, both translators return the same payload. |
| FooTranslatorExtended.TranslateFileFromPython | extend_python/cpp_modifications/CustomFooTranslator_Extended.cpp:96-148 | Disabled extensions, failed validation or a failed engine creation mean failure with the counters untouched. SourceData and options are the same afterwards on every path. Success requires translation and import; the consistency of the counters is kept, and the single log line of each of the four early exits is stated: extensions disabled, validation failed, source data not created, container not created. |
| FooTranslatorExtended.TranslateNext | extend_python/cpp_modifications/CustomFooTranslator_Extended.cpp:423-431 | One file's "Success"/"Failed" entry is appended and the success count stays equal to the number of "Success" entries. |
| FooTranslatorExtended.TranslateEach | extend_python/cpp_modifications/CustomFooTranslator_Extended.cpp:422-432 | There is one entry per file, in order, and the count is the number of "Success" entries. |
| FooTranslatorExtended.CreateTranslator | extend_python/cpp_modifications/CustomFooTranslator_Extended.cpp:382-385 | A created translator starts with the defaults and zero counters. |
| FooTranslatorExtended.BatchTranslateFiles | extend_python/cpp_modifications/CustomFooTranslator_Extended.cpp:408-435 | Without a translator the result is 0 and no entries. Otherwise there is one entry per input, in order, each "Success" exactly when that file's scripted translation succeeds, and the return value is the number of "Success" entries. |
| PyTranslators.NewWrapper | extend_python/python_api/core/translators.py:27-43 | The counters start at zero, and an instance exists exactly when the engine is there and creation succeeded. |
| PyTranslators.SupportedFormats | extend_python/python_api/core/translators.py:45-59 | Mock mode gives [".foo"]; otherwise the result is the engine's format list. |
| PyTranslators.CanTranslateFile | extend_python/python_api/core/translators.py:61-82 | A missing file is false. In mock mode the answer is true exactly when the lower-cased path ends with ".foo"; otherwise it is the engine's answer. |
| PyTranslators.MockFooPathIgnoresCase | extend_python/python_api/core/translators.py:76 | The mock test does not depend on the case of the path. |
| PyTranslators.ValidateFile | extend_python/python_api/core/translators.py:160-183 | In mock mode a missing file fails first and a non-.foo file fails second, each with its message, and otherwise the result is (True, ""). With an instance, validity is the engine's and the message stays "". |
| PyTranslators.MockValidateAgreesWithCanTranslate | extend_python/python_api/core/translators.py:170-176 | In mock mode, validate_file accepts exactly the files can_translate_file accepts. |
| PyTranslators.SetOptions | extend_python/python_api/core/translators.py:206-225 | The dict's pairs are added one by one, in insertion order, into a case-insensitive map. That map is handed to the engine's merge, and nothing happens in mock mode. Options free of case clashes stay free of them. |
| PyTranslators.GetOptions | extend_python/python_api/core/translators.py:227-242 | The result is the engine's options, or the single mock entry. |
| PyTranslators.SetThenGetOptions | extend_python/python_api/core/translators.py:206-242 | With an instance, each pair that no later pair matches up to case reads back under its own spelling, with its value. |
| PyTranslators.SetOptionsOverriddenKeyGone | extend_python/python_api/core/translators.py:217-225 | With an instance, a dict key that a later key equals up to case is absent afterwards. |
| PyTranslators.SetOptionsOnlyListedOrKept | extend_python/python_api/core/translators.py:206-242 | With an instance, every option read back is either a pair no later pair overrides, or an old option that no pair names up to case, with its old value. |
| PyTranslators.SetOptionsCaseClashExample | extend_python/python_api/core/translators.py:217-225 | {"A": "1", "a": "2"} leaves "a" with value "2", and "A" is absent. |
| PyTranslators.ResetOptions | extend_python/python_api/core/translators.py:244-253 | The call is forwarded to the engine's reset, and nothing happens in mock mode. |
| PyTranslators.ResetAfterSetOptions | extend_python/python_api/core/translators.py:244-253 | With an instance, a reset after any set reads back exactly the four defaults. |
| PyTranslators.ImportFile | extend_python/python_api/core/translators.py:84-138 | The total gains one, the time is added, and exactly one of successful/failed gains one, so total = successful + failed is kept. A missing or untranslatable file fails before any engine call. In mock mode the import succeeds exactly when the file exists and ends with ".foo"; otherwise the engine's scripted translation decides. The instance's options are not changed. |
| PyTranslators.LocalStatistics | extend_python/python_api/core/translators.py:30-35 | The local dictionary holds exactly the four counters. |
| PyTranslators.EngineStatistics | extend_python/cpp_modifications/CustomFooTranslator_Extended.cpp:279-281 | The engine's three counter entries are the counters rendered in decimal. |
| PyTranslators.GetStatistics | extend_python/python_api/core/translators.py:255-271 | The result is the local counters in mock mode. Otherwise the engine's entries are laid over them, and the engine's value wins on a shared key. |
| PyTranslators.StatisticsKeysDisjoint | extend_python/python_api/core/translators.py:266-268 | The local and engine key sets never meet. |
| PyTranslators.GetStatisticsKeepsLocalCounts | extend_python/python_api/core/translators.py:262-268 | With an instance, the local counts are still reported. |
| PyTranslators.ResetStatistics | extend_python/python_api/core/translators.py:273-280 | All four counters become zero. |
| PyTranslators.BatchTranslate | extend_python/python_api/core/translators.py:325-364 | failed = total_files - successful ≥ 0. Without the engine every file is reported "Success"; with it the entries and count are the engine batch's. |
| AutomationManager.QualityChecks | extend_python/python_api/automation/manager.py:373-412 | Disabled checks pass. Enabled checks pass exactly when the file exists, its size lies in [min, max·1024·1024], its lower-cased extension is allowed (or the list is empty) and the translator validates it. |
| AutomationManager.UpperCaseExtensionNeverAllowed | extend_python/python_api/automation/manager.py:399-404 | An allowed-list entry containing an upper-case letter never equals a lower-cased extension. |
| AutomationManager.AnyPatternMatches | extend_python/python_api/automation/manager.py:422-426 | The result is true exactly when some lower-cased pattern matches the name. |
| AutomationManager.MatchesFilePatterns | extend_python/python_api/automation/manager.py:414-426 | An empty list accepts every file. Otherwise some lower-cased pattern must match the lower-cased base name. |
| AutomationManager.MatchesFilePatternsMonotone | extend_python/python_api/automation/manager.py:422-426 | Adding patterns never rejects a file that was accepted. |
| AutomationManager.MatchesFilePatternsIgnoresCase | extend_python/python_api/automation/manager.py:420-423 | The case of the file name does not change the outcome. |
| AutomationManager.RecordTime | extend_python/python_api/automation/manager.py:364-371 | The new time is appended and the most recent 100 are kept, in order. |
| AutomationManager.RecordTimeBounded | extend_python/python_api/automation/manager.py:369-371 | The history never exceeds 100 entries. |
| AutomationManager.Counted | extend_python/python_api/automation/manager.py:315-318 | total_processed and the category's count gain one, the last activity is recorded, and nothing else changes. |
| AutomationManager.ConfigureTranslator | extend_python/python_api/automation/manager.py:341-344 | An empty or missing options dictionary leaves the translator alone. A non-empty one is passed to set_options. |
| AutomationManager.ProcessSingleFile | extend_python/python_api/automation/manager.py:303-371 | Every call counts itself first and records its time. A missing or empty rule, disabled auto-import or a pattern mismatch fails without counting a failure; a failed quality check counts one. Only a file that passes everything reaches import_file. Its result is then import_file's verdict, exactly one of success/failure is counted, and the instance is left with the options the rule set. successes + failures ≤ total is kept, and success implies the import was reached. |
| AutomationManager.MockImportAfterQualityChecksSucceeds | extend_python/python_api/automation/manager.py:332-348 | With checks on and no engine, a file that reaches the import exists and ends with ".foo", so the mock import succeeds. |
| AutomationManager.Paths | extend_python/python_api/automation/manager.py:208 | The list holds the path of each watch entry, in order. |
| AutomationManager.AddWatchFolder | extend_python/python_api/automation/manager.py:187-221 | A folder is added exactly when it exists and its absolute path is not listed; otherwise nothing changes. Listed paths stay unique. |
| AutomationManager.WithoutPath | extend_python/python_api/automation/manager.py:234 | The result keeps exactly the entries whose path differs, in order. |
| AutomationManager.WithoutPathUnique | extend_python/python_api/automation/manager.py:234 | Filtering keeps paths unique. |
| AutomationManager.WithoutAbsentPath | extend_python/python_api/automation/manager.py:234 | Filtering out an unlisted path removes nothing. |
| AutomationManager.RemoveWatchFolder | extend_python/python_api/automation/manager.py:223-242 | Every entry with the absolute path is dropped and the others stay in order. The rules and checks are unchanged, and uniqueness is kept. |
| AutomationManager.AddThenRemove | extend_python/python_api/automation/manager.py:196-234 | Removing a folder just added gives the configuration back. |
| AutomationManager.CountImported | extend_python/python_api/automation/manager.py:455-468 | The number of successes never exceeds the number of details. |
| AutomationManager.SuccessRate | extend_python/python_api/automation/manager.py:486 | The rate is 0 for an empty batch, and otherwise rate · total = successful · 100. |
| AutomationManager.ImportNext | extend_python/python_api/automation/manager.py:452-468 | One detail is appended for the file. It is "imported" exactly when import_file succeeds for that file, with the destination; otherwise it carries "Import failed". The success count stays equal to the imported details. |
| AutomationManager.BatchImportFiles | extend_python/python_api/automation/manager.py:428-490 | successful + failed = total_files, and there is one detail per input, in order. Detail i is "imported" exactly when import_file succeeds for file i. The success rate follows from the counts, the translator's total grows by the batch size, and the manager's own statistics are untouched. |

## Left out

- Wedge geometry (`ExecutePostFactoryPipeline`, `BuildWedgeMeshDescription`): floating-point mesh construction over engine mesh APIs. A transform is an opaque token.
- Engine attribute storage (node getters and setters, `FAttributeStorage`, the apply-settings delegates): a node is a record with a payload-key option, settings and targets. Registering attributes is a last-write-wins map.
- Reimport strategy, import-data bookkeeping, `GetSourceFilenames`/`SetSourceFilename`: engine code outside this model. `SetupObject` only reports which of these it would run.
- Allocation failures (`NewObject` of a node returning null, `ensure(Class)`): not modelled. `NewObject` results are modelled only where the factory reads them, as the Begin phase's `newObject`.
- The engine container's `AddNode` on a duplicate uid: the container always appends, and uid lookup returns the first match. `IterateNodes` order is the sequence order.
- DemoObjectPipeline.CreateFactoryNode: uid lookup (`Interchange.IsNodeUidValid`, `Interchange.FindUid`) compares uids exactly. The engine container keys its nodes by FString, which ignores case. If a factory node's uid differs from the derived uid only in case, the engine finds that node (CustomPipelines/Private/CustomDemoObjectPipeline.cpp:94-96); it returns the node, or null when it is not a DemoObject factory node. The model appends a second factory node instead. The node-identity proofs of the pipeline are stated over exact uids, so containers holding uids that differ only in case are outside what the model promises.
- The pipeline object's member arrays: the model assumes one fresh pipeline object per import. The source appends the collected nodes to `CustomDemoObjectNodes` and never clears it, and that array drives the creation loop (CustomPipelines/Private/CustomDemoObjectPipeline.cpp:69) and the `Num() == 1` rename test (:80). A pipeline object reused for a second import would therefore also loop over the first import's nodes, which the model does not describe.
- Exceptions in the Python layer (every `except` branch, including the engine binding raising): not modelled.
- C++ out-parameters through the Python binding: the model assumes the binding accepts the extra argument, returns only the bool or int, and appends to the Python list `results` in place, so `batch_translate` reports the engine's entries. In `validate_file` the local `error_message` is never reassigned, so the engine path returns "" as its message.
- `unreal.Map(str, str)` in `set_options` is assumed to behave like `TMap::Add` on each `__setitem__`: a key equal to an earlier one up to case replaces it, and the new spelling wins. A dict is modelled as its pairs in insertion order.
- Concurrency and monitoring (`FileEventHandler`, observers, `start_monitoring`/`stop_monitoring`, `time.sleep`): out of scope.
- JSON and reporting (`GetPayloadDataAsJson`, `get_payload_data`, `GetTranslatorInfo`/`get_translator_info`, the manager's `get_statistics`, `reset_statistics` and `generate_report`), and configuration load/save and defaults: serialization and text formatting.
- The formatted engine statistics entries (`SuccessRate`, `AverageTranslationTime`, `TotalTranslationTime`): float formatting. Only the three integer entries are modelled.
- `GetAvailableTranslatorTypes`, `find_best_translator`, `get_available_translators`: constant lists and thin wrappers. `FindBestTranslatorForFile` is modelled.
- The log lines written by `SetTranslationOptions`/`ResetTranslationOptions` and by payload loading: not modelled. Logging is modelled for `Translate` and `TranslateFileFromPython`.
- 32-bit integers: edge numbers, wedge counts and counters are unbounded. The source's `int32` overflow is out of reach of realistic inputs.
- Case folding is ASCII only, and `FPaths::NormalizeFilename`, `GetExtension` and `os.path` are uninterpreted functions.
- `max_file_size_mb` is modelled as an integer. The configuration may hold a float there.
- Processing and import times are kept as exact `real` values. Their sources are parameters.
- AutomationManager.SuccessRate: the percentage is an exact real. The source divides Python floats (automation/manager.py:486), which round. So the stated identity rate · total = successful · 100 holds of the model but not always of the float result: 1 success in 3 files gives 33.333…, and three times that float is not exactly 100.
- FooTranslatorExtended.BatchTranslateFiles: does not return the translator it creates, because the source discards it after the loop. It also does not state the bound successCount ≤ |filePaths|; that follows from `CountSuccess`'s contract.
- PyTranslators.NewWrapper: does not state `Balanced` of the fresh counters. They are equal to `ZeroCounters`, which satisfies it trivially.
