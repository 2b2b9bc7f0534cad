/**
 * The Python wrapper `CustomFooTranslator` and the static `TranslatorManager` helpers.
 *
 * The wrapper keeps counters of its own and, when the engine is reachable, an instance of
 * the extended translator (`FooTranslatorExtended.Translator`). Without an instance it
 * falls back to "mock" answers that only look at the path. The engine-side state the
 * instance's calls need (paths, console variables) is the `Bridge`; `os.path` is `PyOs`.
 */
module PyTranslators {
  import opened Wrappers
  import opened Text
  import opened Host
  import FooTranslator
  import FooTranslatorExtended
  import CaseMap

  /** The engine configuration every call through the instance runs under. */
  datatype Bridge = Bridge(
    paths: EnginePaths,
    pythonEnabled: bool,       // GInterchangeEnablePythonExtensions
    fooImportEnabled: bool,    // Interchange.FeatureFlags.Import.Foo
    automationTesting: bool)   // GIsAutomationTesting

  // ---------------------------------------------------------------------------
  // Counters

  /** `_statistics`: the wrapper's own counters and the summed wall-clock time. */
  datatype Counters = Counters(total: nat, successful: nat, failed: nat, totalTime: real)

  const ZeroCounters: Counters := Counters(0, 0, 0, 0.0)

  /** Every counted import ended as exactly one of a success or a failure. */
  predicate Balanced(c: Counters) {
    c.total == c.successful + c.failed
  }

  /** The wrapper: the engine translator instance, if one could be created, and the counters. */
  datatype Wrapper = Wrapper(instance: Option<FooTranslatorExtended.Translator>, counters: Counters)

  /** `__init__`: zero counters; an instance only when the engine is there and creation succeeded. */
  function NewWrapper(unrealAvailable: bool, instanceCreated: bool): (w: Wrapper)
    ensures w.counters == ZeroCounters
    ensures w.instance.Some? <==> unrealAvailable && instanceCreated
    ensures w.instance.Some? ==> w.instance.value.stats == FooTranslatorExtended.ZeroStats
  {
    if !unrealAvailable || !instanceCreated then Wrapper(None, ZeroCounters)
    else Wrapper(Some(FooTranslatorExtended.NewTranslator()), ZeroCounters)
  }

  // ---------------------------------------------------------------------------
  // Formats and file checks

  /** get_supported_formats: ".foo" in mock mode, otherwise the engine translator's list. */
  function SupportedFormats(w: Wrapper, bridge: Bridge): (r: seq<string>)
    ensures w.instance.None? ==> r == [".foo"]
    ensures w.instance.Some? ==> r == FooTranslator.SupportedFormats(bridge.fooImportEnabled, bridge.automationTesting)
  {
    if w.instance.None? then [".foo"]
    else FooTranslator.SupportedFormats(bridge.fooImportEnabled, bridge.automationTesting)
  }

  /** The mock format test: the lower-cased path ends with ".foo". */
  predicate MockFooPath(filePath: string) {
    EndsWith(Lower(filePath), ".foo")
  }

  /**
   * can_translate_file: false for a path that does not exist; otherwise the mock test
   * without an instance and the engine's CanTranslateFile with one.
   */
  function CanTranslateFile(w: Wrapper, os: PyOs, bridge: Bridge, filePath: string): (r: bool)
    ensures !os.pathExists(filePath) ==> !r
    ensures w.instance.None? ==> (r <==> os.pathExists(filePath) && MockFooPath(filePath))
    ensures w.instance.Some? ==>
      (r <==> os.pathExists(filePath)
              && FooTranslatorExtended.CanTranslateFile(bridge.paths, bridge.fooImportEnabled, bridge.automationTesting, filePath))
  {
    if !os.pathExists(filePath) then false
    else if w.instance.None? then MockFooPath(filePath)
    else FooTranslatorExtended.CanTranslateFile(bridge.paths, bridge.fooImportEnabled, bridge.automationTesting, filePath)
  }

  /** The lower-case test is insensitive to the case the path is written in. */
  lemma MockFooPathIgnoresCase(a: string, b: string)
    requires Lower(a) == Lower(b)
    ensures MockFooPath(a) <==> MockFooPath(b)
  {
  }

  /** The pair validate_file returns. */
  datatype PyValidation = PyValidation(valid: bool, message: string)

  /**
   * validate_file. In mock mode: a missing file, then a path not ending in ".foo" (the
   * message quotes `os.path.splitext`'s extension), else valid. With an instance: the
   * engine's verdict, and the message stays the empty string the wrapper started with,
   * since the wrapper never reassigns its local `error_message`.
   */
  function ValidateFile(w: Wrapper, os: PyOs, bridge: Bridge, filePath: string): (r: PyValidation)
    ensures w.instance.None? ==> (r.valid <==> os.pathExists(filePath) && MockFooPath(filePath))
    ensures w.instance.None? ==> (r.valid <==> r.message == "")
    ensures w.instance.None? && !os.pathExists(filePath) ==> r.message == "File does not exist: " + filePath
    ensures w.instance.None? && os.pathExists(filePath) && !MockFooPath(filePath) ==>
      r.message == "Unsupported file format: " + os.splitextExt(filePath)
    ensures w.instance.Some? ==>
      r.valid == FooTranslatorExtended.FileValid(bridge.paths, bridge.fooImportEnabled, bridge.automationTesting, filePath)
    ensures w.instance.Some? ==> r.message == ""
  {
    if w.instance.None? then
      if !os.pathExists(filePath) then PyValidation(false, "File does not exist: " + filePath)
      else if !MockFooPath(filePath) then PyValidation(false, "Unsupported file format: " + os.splitextExt(filePath))
      else PyValidation(true, "")
    else
      var v := FooTranslatorExtended.ValidateFileForTranslation(bridge.paths, bridge.fooImportEnabled,
                                                                 bridge.automationTesting, filePath);
      PyValidation(v.ok, "")
  }

  /** In mock mode, a file validates exactly when it can be translated. */
  lemma MockValidateAgreesWithCanTranslate(w: Wrapper, os: PyOs, bridge: Bridge, filePath: string)
    requires w.instance.None?
    ensures ValidateFile(w, os, bridge, filePath).valid == CanTranslateFile(w, os, bridge, filePath)
  {
  }

  // ---------------------------------------------------------------------------
  // Options

  /**
   * set_options: the dict's pairs, in insertion order, are stored one by one into an
   * unreal.Map (a TMap, so a key equal to an earlier one up to case replaces it), which is
   * then handed to the instance's SetTranslationOptions; nothing happens in mock mode.
   */
  function SetOptions(w: Wrapper, items: seq<(string, string)>): (r: Wrapper)
    ensures r.counters == w.counters && r.instance.Some? == w.instance.Some?
    ensures w.instance.None? ==> r == w
    ensures w.instance.Some? ==>
      r.instance.value == FooTranslatorExtended.SetTranslationOptions(w.instance.value, CaseMap.AddItems(map[], items))
    ensures w.instance.Some? && CaseMap.CaseUnique(w.instance.value.options) ==>
      CaseMap.CaseUnique(r.instance.value.options)
  {
    match w.instance
    case None => w
    case Some(t) =>
      CaseMap.AddItemsCaseUnique(map[], items);
      w.(instance := Some(FooTranslatorExtended.SetTranslationOptions(t, CaseMap.AddItems(map[], items))))
  }

  /** get_options: the instance's options, or the one mock entry. */
  function GetOptions(w: Wrapper): (r: map<string, string>)
    ensures w.instance.Some? ==> r == w.instance.value.options
    ensures w.instance.None? ==> r.Keys == {"mock_option"} && r["mock_option"] == "development_mode"
  {
    match w.instance
    case None => map["mock_option" := "development_mode"]
    case Some(t) => t.options
  }

  /**
   * With an instance, get_options after set_options holds each pair that no later pair
   * matches up to case, under that pair's spelling and with its value.
   */
  lemma SetThenGetOptions(w: Wrapper, items: seq<(string, string)>, i: nat)
    requires w.instance.Some? && i < |items| && CaseMap.LastOfItsCase(items, i)
    ensures items[i].0 in GetOptions(SetOptions(w, items))
    ensures GetOptions(SetOptions(w, items))[items[i].0] == items[i].1
  {
    CaseMap.AddItemsLastWins(items, i);
  }

  /**
   * With an instance, a dict key that a later key equals up to case is gone after
   * set_options: the later spelling replaced it, and the old option of that name too.
   */
  lemma SetOptionsOverriddenKeyGone(w: Wrapper, items: seq<(string, string)>, i: nat)
    requires w.instance.Some? && i < |items| && CaseMap.DistinctKeys(items) && !CaseMap.LastOfItsCase(items, i)
    ensures items[i].0 !in GetOptions(SetOptions(w, items))
  {
    var given := CaseMap.AddItems(map[], items);
    var k := items[i].0;
    if k in given {
      var j := CaseMap.AddItemsOnlyLast(items, k);
      assert false;
    }
    var later :| i < later < |items| && Lower(items[later].0) == Lower(k);
    CaseMap.AddItemsHasKey(items, k);
    assert CaseMap.HasKeyIgnoreCase(given, k);
  }

  /**
   * With an instance, every option read back after set_options is a pair no later pair
   * overrides, or an option held before that no pair names up to case.
   */
  lemma SetOptionsOnlyListedOrKept(w: Wrapper, items: seq<(string, string)>, k: string)
    requires w.instance.Some? && k in GetOptions(SetOptions(w, items))
    ensures (exists i :: 0 <= i < |items| && items[i].0 == k && CaseMap.LastOfItsCase(items, i)) ||
            (k in w.instance.value.options && GetOptions(SetOptions(w, items))[k] == w.instance.value.options[k] &&
             forall i :: 0 <= i < |items| ==> Lower(items[i].0) != Lower(k))
  {
    var given := CaseMap.AddItems(map[], items);
    if k in given {
      var i := CaseMap.AddItemsOnlyLast(items, k);
    } else {
      CaseMap.AddItemsHasKey(items, k);
    }
  }

  /** {"A": "1", "a": "2"}: one option remains, spelled "a", with value "2". */
  lemma SetOptionsCaseClashExample(w: Wrapper)
    requires w.instance.Some?
    ensures "a" in GetOptions(SetOptions(w, [("A", "1"), ("a", "2")]))
    ensures GetOptions(SetOptions(w, [("A", "1"), ("a", "2")]))["a"] == "2"
    ensures "A" !in GetOptions(SetOptions(w, [("A", "1"), ("a", "2")]))
  {
    var items := [("A", "1"), ("a", "2")];
    assert Lower("A") == Lower("a");
    SetThenGetOptions(w, items, 1);
    SetOptionsOverriddenKeyGone(w, items, 0);
  }

  /** reset_options: forwarded to the instance; nothing happens in mock mode. */
  function ResetOptions(w: Wrapper): (r: Wrapper)
    ensures r.counters == w.counters && r.instance.Some? == w.instance.Some?
    ensures w.instance.None? ==> r == w
    ensures w.instance.Some? ==> r.instance.value == FooTranslatorExtended.ResetTranslationOptions(w.instance.value)
  {
    match w.instance
    case None => w
    case Some(t) => w.(instance := Some(FooTranslatorExtended.ResetTranslationOptions(t)))
  }

  /** With an instance, a reset after any set_options reads back exactly the four defaults. */
  lemma ResetAfterSetOptions(w: Wrapper, items: seq<(string, string)>)
    requires w.instance.Some?
    ensures GetOptions(ResetOptions(SetOptions(w, items))) == FooTranslatorExtended.DefaultOptions()
  {
  }

  // ---------------------------------------------------------------------------
  // Importing

  /**
   * import_file reports success: the file can be translated and, with an instance, the
   * engine's TranslateFileFromPython succeeds (mock mode asks nothing more).
   */
  predicate ImportSucceeds(w: Wrapper, os: PyOs, bridge: Bridge, filePath: string,
                           engine: FooTranslatorExtended.EngineOutcome) {
    && CanTranslateFile(w, os, bridge, filePath)
    && (w.instance.Some? ==>
          FooTranslatorExtended.PythonSucceeds(bridge.paths, bridge.pythonEnabled, bridge.fooImportEnabled,
                                               bridge.automationTesting, filePath, engine))
  }

  /**
   * import_file. Counts the call, then fails without reaching the engine for a missing
   * or untranslatable file; in mock mode every remaining file succeeds; otherwise the
   * engine's TranslateFileFromPython decides. Exactly one of the success and failure
   * counters moves, and the elapsed time is added on every path.
   */
  method ImportFile(w: Wrapper, os: PyOs, bridge: Bridge, filePath: string, destinationPath: string,
                    engine: FooTranslatorExtended.EngineOutcome, elapsed: real)
    returns (r: Wrapper, ok: bool)
    ensures r.counters.total == w.counters.total + 1
    ensures r.counters.totalTime == w.counters.totalTime + elapsed
    ensures ok ==> r.counters.successful == w.counters.successful + 1 && r.counters.failed == w.counters.failed
    ensures !ok ==> r.counters.failed == w.counters.failed + 1 && r.counters.successful == w.counters.successful
    ensures Balanced(w.counters) ==> Balanced(r.counters)
    ensures !CanTranslateFile(w, os, bridge, filePath) ==> !ok && r.instance == w.instance
    ensures w.instance.None? ==> r.instance == w.instance && (ok <==> os.pathExists(filePath) && MockFooPath(filePath))
    ensures ok == ImportSucceeds(w, os, bridge, filePath, engine)
    ensures r.instance.Some? == w.instance.Some?
    ensures w.instance.Some? ==> r.instance.value.options == w.instance.value.options
    ensures w.instance.Some? && FooTranslatorExtended.StatsConsistent(w.instance.value.stats) ==>
      FooTranslatorExtended.StatsConsistent(r.instance.value.stats)
  {
    var c := w.counters.(total := w.counters.total + 1, totalTime := w.counters.totalTime + elapsed);
    var instance := w.instance;
    if !os.pathExists(filePath) || !CanTranslateFile(w, os, bridge, filePath) {
      ok := false;
    } else if w.instance.None? {
      ok := true;
    } else {
      var out := FooTranslatorExtended.TranslateFileFromPython(w.instance.value, bridge.paths, bridge.pythonEnabled,
                                                               bridge.fooImportEnabled, bridge.automationTesting,
                                                               filePath, destinationPath, engine);
      instance := Some(out.translator);
      ok := out.ok;
    }
    c := if ok then c.(successful := c.successful + 1) else c.(failed := c.failed + 1);
    r := Wrapper(instance, c);
  }

  // ---------------------------------------------------------------------------
  // Statistics

  /** The values a statistics dictionary holds. */
  datatype StatValue = Count(n: int) | Seconds(t: real) | Text(s: string)

  /** The wrapper's own counters as the dictionary `_statistics`. */
  function LocalStatistics(c: Counters): (m: map<string, StatValue>)
    ensures m.Keys == {"total_translations", "successful_translations", "failed_translations", "total_time"}
    ensures m["total_translations"] == Count(c.total) && m["successful_translations"] == Count(c.successful)
    ensures m["failed_translations"] == Count(c.failed) && m["total_time"] == Seconds(c.totalTime)
  {
    map["total_translations" := Count(c.total), "successful_translations" := Count(c.successful),
        "failed_translations" := Count(c.failed), "total_time" := Seconds(c.totalTime)]
  }

  /** The counter entries of the engine's GetTranslationStatistics, rendered with FString::FromInt. */
  function EngineStatistics(s: FooTranslatorExtended.Stats): (m: map<string, StatValue>)
    ensures m.Keys == {"TotalTranslations", "SuccessfulTranslations", "FailedTranslations"}
    ensures m["TotalTranslations"] == Text(IntToString(s.count))
    ensures m["SuccessfulTranslations"] == Text(IntToString(s.successes))
    ensures m["FailedTranslations"] == Text(IntToString(s.failures))
  {
    map["TotalTranslations" := Text(IntToString(s.count)), "SuccessfulTranslations" := Text(IntToString(s.successes)),
        "FailedTranslations" := Text(IntToString(s.failures))]
  }

  /**
   * get_statistics: the local counters in mock mode; otherwise the engine's entries laid
   * over them, so that on a shared key the engine's value is the one returned.
   */
  function GetStatistics(w: Wrapper): (r: map<string, StatValue>)
    ensures w.instance.None? ==> r == LocalStatistics(w.counters)
    ensures w.instance.Some? ==> r.Keys == LocalStatistics(w.counters).Keys + EngineStatistics(w.instance.value.stats).Keys
    ensures w.instance.Some? ==> forall k :: k in EngineStatistics(w.instance.value.stats) ==>
      r[k] == EngineStatistics(w.instance.value.stats)[k]
    ensures w.instance.Some? ==> forall k :: k in LocalStatistics(w.counters) && k !in EngineStatistics(w.instance.value.stats) ==>
      r[k] == LocalStatistics(w.counters)[k]
  {
    match w.instance
    case None => LocalStatistics(w.counters)
    case Some(t) => LocalStatistics(w.counters) + EngineStatistics(t.stats)
  }

  /** The two key sets never meet, so the overlay keeps every local counter. */
  lemma StatisticsKeysDisjoint(c: Counters, s: FooTranslatorExtended.Stats)
    ensures LocalStatistics(c).Keys !! EngineStatistics(s).Keys
  {
    var local := LocalStatistics(c).Keys;
    var engine := EngineStatistics(s).Keys;
    forall k | k in local
      ensures k !in engine
    {
      assert k[0] in "tsf";
      assert "TotalTranslations"[0] == 'T' && "SuccessfulTranslations"[0] == 'S' && "FailedTranslations"[0] == 'F';
    }
  }

  /** With an instance, get_statistics still reports the wrapper's own counts. */
  lemma GetStatisticsKeepsLocalCounts(w: Wrapper)
    requires w.instance.Some?
    ensures GetStatistics(w)["total_translations"] == Count(w.counters.total)
    ensures GetStatistics(w)["successful_translations"] == Count(w.counters.successful)
    ensures GetStatistics(w)["failed_translations"] == Count(w.counters.failed)
  {
    StatisticsKeysDisjoint(w.counters, w.instance.value.stats);
  }

  /** reset_statistics: all four counters back to zero; the instance is untouched. */
  function ResetStatistics(w: Wrapper): (r: Wrapper)
    ensures r.counters.total == 0 && r.counters.successful == 0 && r.counters.failed == 0
    ensures r.counters.totalTime == 0.0
    ensures r.instance == w.instance
  {
    w.(counters := ZeroCounters)
  }

  // ---------------------------------------------------------------------------
  // TranslatorManager.batch_translate

  /** The dictionary batch_translate returns. */
  datatype BatchReport = BatchReport(totalFiles: nat, successful: nat, failed: int, results: seq<string>)

  /**
   * batch_translate. Without the engine every file is reported as a success; with it the
   * engine's BatchTranslateFiles runs and the failures are the files it did not count as
   * successes.
   */
  method BatchTranslate(unrealAvailable: bool, bridge: Bridge, translatorCreated: bool, filePaths: seq<string>,
                        destinationPath: string, engine: seq<FooTranslatorExtended.EngineOutcome>)
    returns (r: BatchReport)
    requires |engine| == |filePaths|
    ensures r.totalFiles == |filePaths|
    ensures r.failed == r.totalFiles - r.successful && 0 <= r.failed
    ensures !unrealAvailable ==> r.successful == |filePaths| && r.failed == 0
    ensures !unrealAvailable ==> |r.results| == |filePaths| && forall i :: 0 <= i < |r.results| ==> r.results[i] == "Success"
    ensures unrealAvailable && translatorCreated ==> |r.results| == |filePaths| && forall i :: 0 <= i < |filePaths| ==>
      r.results[i] == FooTranslatorExtended.BatchEntry(bridge.paths, bridge.pythonEnabled, bridge.fooImportEnabled,
                                                       bridge.automationTesting, filePaths[i], engine[i])
    ensures unrealAvailable ==> r.successful == FooTranslatorExtended.CountSuccess(r.results)
    ensures unrealAvailable && !translatorCreated ==> r.successful == 0 && r.results == [] && r.failed == |filePaths|
  {
    if !unrealAvailable {
      return BatchReport(|filePaths|, |filePaths|, 0, seq(|filePaths|, _ => "Success"));
    }
    var count, results := FooTranslatorExtended.BatchTranslateFiles(bridge.paths, bridge.pythonEnabled,
                                                                     bridge.fooImportEnabled, bridge.automationTesting,
                                                                     translatorCreated, filePaths, destinationPath, engine);
    r := BatchReport(|filePaths|, count, |filePaths| - count, results);
  }
}
