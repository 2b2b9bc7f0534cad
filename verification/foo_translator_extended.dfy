/**
 * UCustomFooTranslatorExtended and UPythonTranslatorManager: the Foo translator with a
 * scripting surface. The translator gains a string-to-string options map with four
 * defaults, translation counters, file validation with an error message, a "translate
 * and import this file" entry point, and a batch loop over files.
 *
 * What the engine does beyond the translator (creating source data and containers,
 * running the import, the clock) arrives as an `EngineOutcome` per call.
 */
module FooTranslatorExtended {
  import opened Wrappers
  import opened Text
  import opened Host
  import opened Interchange
  import FooTranslator
  import CaseMap

  // ---------------------------------------------------------------------------
  // Log lines

  datatype LogLevel = ErrorLevel | WarningLevel | InfoLevel

  datatype LogEvent = LogEvent(level: LogLevel, line: string)

  /**
   * The verbosity an event type maps to: "Error", "Warning", anything else is plain log.
   * FString's == ignores case, so "error" is an error too.
   */
  function LevelOf(eventType: string): (l: LogLevel)
    ensures l == ErrorLevel <==> EqualsIgnoreCase(eventType, "Error")
    ensures l == WarningLevel <==> EqualsIgnoreCase(eventType, "Warning")
  {
    if EqualsIgnoreCase(eventType, "Error") then ErrorLevel
    else if EqualsIgnoreCase(eventType, "Warning") then WarningLevel
    else InfoLevel
  }

  /** "[Type] Message": the part of every line that does not depend on the file. */
  function LogHead(eventType: string, message: string): string {
    "[" + eventType + "] " + message
  }

  /**
   * LogTranslationEvent: the head, followed by " (File: path)" exactly when a path is
   * given.
   */
  function LogTranslationEvent(eventType: string, message: string, filePath: string): (e: LogEvent)
    ensures e.level == LevelOf(eventType)
    ensures |LogHead(eventType, message)| <= |e.line|
    ensures e.line[..|LogHead(eventType, message)|] == LogHead(eventType, message)
    ensures filePath == "" <==> e.line == LogHead(eventType, message)
    ensures filePath != "" ==> e.line[|LogHead(eventType, message)|..] == " (File: " + filePath + ")"
  {
    var head := LogHead(eventType, message);
    var line := if filePath == "" then head else head + " (File: " + filePath + ")";
    assert line[..|head|] == head;
    LogEvent(LevelOf(eventType), line)
  }

  // ---------------------------------------------------------------------------
  // Options

  /** The options a new or reset translator holds. */
  function DefaultOptions(): map<string, string> {
    map["EnableDetailedLogging" := "true", "ValidateInputFiles" := "true",
        "CreateBackups" := "false", "OverwriteExisting" := "false"]
  }

  /** The four default options and their values. */
  lemma DefaultOptionsContents()
    ensures DefaultOptions().Keys == {"EnableDetailedLogging", "ValidateInputFiles", "CreateBackups", "OverwriteExisting"}
    ensures DefaultOptions()["EnableDetailedLogging"] == "true" && DefaultOptions()["ValidateInputFiles"] == "true"
    ensures DefaultOptions()["CreateBackups"] == "false" && DefaultOptions()["OverwriteExisting"] == "false"
  {
  }

  /** No two default option names differ only in case, as a TMap's keys never do. */
  lemma DefaultOptionsCaseUnique()
    ensures CaseMap.CaseUnique(DefaultOptions())
  {
    forall a, b | a in DefaultOptions() && b in DefaultOptions() && Lower(a) == Lower(b)
      ensures a == b
    {
      assert |Lower(a)| == |a| && |Lower(b)| == |b|;
    }
  }

  // ---------------------------------------------------------------------------
  // Statistics

  /** The counters; the time total is kept exactly. */
  datatype Stats = Stats(count: nat, successes: nat, failures: nat, totalTime: real)

  const ZeroStats: Stats := Stats(0, 0, 0, 0.0)

  /** Every translation counted is either a success or a failure. */
  predicate StatsConsistent(s: Stats) {
    s.count == s.successes + s.failures
  }

  /** UpdateStatistics: one more translation, counted as a success or a failure. */
  function UpdateStatistics(s: Stats, success: bool, elapsed: real): (r: Stats)
    ensures r.count == s.count + 1 && r.totalTime == s.totalTime + elapsed
    ensures success ==> r.successes == s.successes + 1 && r.failures == s.failures
    ensures !success ==> r.failures == s.failures + 1 && r.successes == s.successes
    ensures StatsConsistent(s) ==> StatsConsistent(r)
  {
    var r := s.(count := s.count + 1, totalTime := s.totalTime + elapsed);
    if success then r.(successes := s.successes + 1) else r.(failures := s.failures + 1)
  }

  // ---------------------------------------------------------------------------
  // The translator

  /** The translator's state: its options, its counters and its SourceData filename. */
  datatype Translator = Translator(options: map<string, string>, stats: Stats, sourceData: Option<string>)

  /** CreateTranslator: default options, zero counters, no source data. */
  function NewTranslator(): (t: Translator)
    ensures t.options == DefaultOptions() && t.stats == ZeroStats && t.sourceData.None?
  {
    Translator(DefaultOptions(), ZeroStats, None)
  }

  /**
   * SetTranslationOptions: each given option is added, replacing an option whose name equals
   * it up to case (the given spelling wins); the options no given name matches stay.
   */
  function SetTranslationOptions(t: Translator, given: map<string, string>): (r: Translator)
    ensures forall k :: k in given ==> k in r.options && r.options[k] == given[k]
    ensures forall k :: k in t.options && !CaseMap.HasKeyIgnoreCase(given, k) ==>
      k in r.options && r.options[k] == t.options[k]
    ensures forall k :: k in r.options ==> k in given || (k in t.options && !CaseMap.HasKeyIgnoreCase(given, k))
    ensures CaseMap.CaseUnique(t.options) && CaseMap.CaseUnique(given) ==> CaseMap.CaseUnique(r.options)
    ensures r.stats == t.stats && r.sourceData == t.sourceData
  {
    t.(options := CaseMap.Merge(t.options, given))
  }

  /**
   * The loop of SetTranslationOptions, one TMap::Add per given entry in the map's iteration
   * order, ends with the same options whatever that order is.
   */
  lemma SetTranslationOptionsInAnyOrder(t: Translator, given: map<string, string>, order: seq<(string, string)>)
    requires CaseMap.CaseUnique(given) && CaseMap.Enumerates(order, given)
    ensures CaseMap.AddItems(t.options, order) == SetTranslationOptions(t, given).options
  {
    CaseMap.AddItemsInAnyOrder(t.options, given, order);
  }

  /** ResetTranslationOptions: exactly the defaults again. */
  function ResetTranslationOptions(t: Translator): (r: Translator)
    ensures r.options == DefaultOptions()
    ensures r.stats == t.stats && r.sourceData == t.sourceData
  {
    t.(options := map[]).(options := DefaultOptions())
  }

  /** Setting the same options twice is the same as setting them once. */
  lemma SetTranslationOptionsIdempotent(t: Translator, given: map<string, string>)
    ensures SetTranslationOptions(SetTranslationOptions(t, given), given) == SetTranslationOptions(t, given)
  {
    var once := SetTranslationOptions(t, given).options;
    var twice := SetTranslationOptions(SetTranslationOptions(t, given), given).options;
    forall k | k in twice ensures k in once && twice[k] == once[k] {
    }
    forall k | k in once ensures k in twice {
    }
    assert twice == once;
  }

  /** A reset forgets every option set before it. */
  lemma ResetForgetsOptions(t: Translator, given: map<string, string>)
    ensures ResetTranslationOptions(SetTranslationOptions(t, given)).options == NewTranslator().options
  {
  }

  /** The case-folded extension before the first ';' of a format string, if it has one. */
  function FormatExtension(format: string): Option<string> {
    match BeforeFirst(format, ';')
    case None => None
    case Some(e) => Some(Lower(e))
  }

  /** Some format in `formats` names extension `ext` (already lower case). */
  function AnyFormatMatches(ext: string, formats: seq<string>): (r: bool)
    ensures r <==> exists i :: 0 <= i < |formats| && FormatExtension(formats[i]) == Some(ext)
  {
    if |formats| == 0 then false
    else if FormatExtension(formats[0]) == Some(ext) then true
    else
      var r := AnyFormatMatches(ext, formats[1..]);
      assert forall i :: 1 <= i < |formats| ==> formats[i] == formats[1..][i - 1];
      r
  }

  /** The text before a separator at `k` that occurs nowhere earlier. */
  lemma BeforeFirstAt(s: string, sep: char, k: nat)
    requires k < |s| && s[k] == sep
    requires forall j :: 0 <= j < k ==> s[j] != sep
    ensures BeforeFirst(s, sep) == Some(s[..k])
  {
    assert s[k] == sep;
  }

  /** The text of the Foo format string before its ';'. */
  lemma FooFormatPrefix()
    ensures BeforeFirst(FooTranslator.FooFormat, ';') == Some("foo")
  {
    var s := FooTranslator.FooFormat;
    assert s[0] == 'f' && s[1] == 'o' && s[2] == 'o' && s[3] == ';';
    assert forall j :: 0 <= j < 3 ==> s[j] != ';';
    assert s[..3] == "foo";
    BeforeFirstAt(s, ';', 3);
  }

  lemma LowerFoo()
    ensures Lower("foo") == "foo"
  {
    var l := Lower("foo");
    assert l[0] == 'f' && l[1] == 'o' && l[2] == 'o';
  }

  /** The format string's extension part is "foo". */
  lemma FooFormatExtension()
    ensures FormatExtension(FooTranslator.FooFormat) == Some("foo")
  {
    FooFormatPrefix();
    LowerFoo();
  }

  /**
   * CanTranslateFile: the lower-cased extension of the path equals the lower-cased
   * extension part of one of the supported formats.
   */
  function CanTranslateFile(paths: EnginePaths, fooImportEnabled: bool, automationTesting: bool, filePath: string): bool {
    AnyFormatMatches(Lower(paths.extension(filePath)), FooTranslator.SupportedFormats(fooImportEnabled, automationTesting))
  }

  /** Reference reading: a file can be translated exactly when Foo is on and its extension is "foo" in any case. */
  lemma CanTranslateFileIffFoo(paths: EnginePaths, fooImportEnabled: bool, automationTesting: bool, filePath: string)
    ensures CanTranslateFile(paths, fooImportEnabled, automationTesting, filePath) <==>
      (fooImportEnabled || automationTesting) && EqualsIgnoreCase(paths.extension(filePath), "foo")
  {
    FooFormatExtension();
    assert Lower("foo") == "foo";
    var formats := FooTranslator.SupportedFormats(fooImportEnabled, automationTesting);
    if fooImportEnabled || automationTesting {
      assert formats == [FooTranslator.FooFormat];
    }
  }

  /** FindBestTranslatorForFile: the extended translator's type name when it can take the file, else "". */
  function FindBestTranslatorForFile(paths: EnginePaths, fooImportEnabled: bool, automationTesting: bool, filePath: string): (r: string)
    ensures r != "" <==> CanTranslateFile(paths, fooImportEnabled, automationTesting, filePath)
    ensures r != "" ==> r == "CustomFooTranslatorExtended"
  {
    if CanTranslateFile(paths, fooImportEnabled, automationTesting, filePath) then "CustomFooTranslatorExtended" else ""
  }

  // ---------------------------------------------------------------------------
  // Validation

  datatype Validation = Validation(ok: bool, message: string)

  /** The file passes all four checks of ValidateFileForTranslation. */
  predicate FileValid(paths: EnginePaths, fooImportEnabled: bool, automationTesting: bool, filePath: string) {
    && paths.fileExists(filePath)
    && CanTranslateFile(paths, fooImportEnabled, automationTesting, filePath)
    && paths.fileSize(filePath) > 0
    && paths.loadFile(filePath).Some?
  }

  /**
   * ValidateFileForTranslation: the checks run in order (existence, format, size,
   * readability) and the message names the first one that fails; a valid file gets an
   * empty message and every failure a non-empty one.
   */
  function ValidateFileForTranslation(paths: EnginePaths, fooImportEnabled: bool, automationTesting: bool, filePath: string): (r: Validation)
    ensures r.ok <==> FileValid(paths, fooImportEnabled, automationTesting, filePath)
    ensures r.ok <==> r.message == ""
    ensures !paths.fileExists(filePath) ==> r.message == "File does not exist: " + filePath
    ensures paths.fileExists(filePath) && !CanTranslateFile(paths, fooImportEnabled, automationTesting, filePath) ==>
      r.message == "File format not supported: " + paths.extension(filePath)
    ensures (paths.fileExists(filePath) && CanTranslateFile(paths, fooImportEnabled, automationTesting, filePath)
             && paths.fileSize(filePath) <= 0) ==>
      r.message == "Invalid file size: " + IntToString(paths.fileSize(filePath))
    ensures (paths.fileExists(filePath) && CanTranslateFile(paths, fooImportEnabled, automationTesting, filePath)
             && paths.fileSize(filePath) > 0 && paths.loadFile(filePath).None?) ==>
      r.message == "Cannot read file: " + filePath
  {
    if !paths.fileExists(filePath) then Validation(false, "File does not exist: " + filePath)
    else if !CanTranslateFile(paths, fooImportEnabled, automationTesting, filePath) then
      Validation(false, "File format not supported: " + paths.extension(filePath))
    else if paths.fileSize(filePath) <= 0 then
      Validation(false, "Invalid file size: " + IntToString(paths.fileSize(filePath)))
    else if paths.loadFile(filePath).None? then Validation(false, "Cannot read file: " + filePath)
    else Validation(true, "")
  }

  // ---------------------------------------------------------------------------
  // Translation

  /** The result of Translate: the translator (its counters move), the container and the log. */
  datatype TranslateOutcome = TranslateOutcome(translator: Translator, ok: bool, container: Container, log: seq<LogEvent>)

  /**
   * Translate: the base translation on the SourceData filename, timed; the counters record
   * the outcome and one Info or Error line names the file.
   */
  function Translate(t: Translator, paths: EnginePaths, elapsed: real, c: Container): (r: TranslateOutcome)
    requires t.sourceData.Some?
    ensures r.ok == FooTranslator.Translate(paths, t.sourceData.value, c).ok
    ensures r.container == FooTranslator.Translate(paths, t.sourceData.value, c).container
    ensures r.translator == t.(stats := UpdateStatistics(t.stats, r.ok, elapsed))
    ensures |r.log| == 1 && (r.log[0].level == ErrorLevel <==> !r.ok)
  {
    var filename := t.sourceData.value;
    var res := FooTranslator.Translate(paths, filename, c);
    var event := if res.ok then LogTranslationEvent("Info", "Translation completed successfully", filename)
                 else LogTranslationEvent("Error", "Translation failed", filename);
    TranslateOutcome(t.(stats := UpdateStatistics(t.stats, res.ok, elapsed)), res.ok, res.container, [event])
  }

  /**
   * GetDemoObjectPayloadData of the extended translator: reads the file the payload key
   * names; unlike the base translator it reports failure instead of an empty text.
   */
  function ExtendedPayloadData(paths: EnginePaths, payloadKey: string): (r: Option<FooTranslator.PayloadData>)
    ensures r.Some? <==> paths.loadFile(payloadKey).Some?
    ensures r.Some? ==> r.value.formatJsonData == paths.loadFile(payloadKey).value
  {
    match paths.loadFile(payloadKey)
    case None => None
    case Some(text) => Some(FooTranslator.PayloadData(text))
  }

  /** Where the file is readable and the key is the source file, both translators hand back the same payload. */
  lemma ExtendedPayloadAgreesWithBase(paths: EnginePaths, sourceFilename: string)
    requires paths.loadFile(sourceFilename).Some?
    ensures ExtendedPayloadData(paths, sourceFilename) == FooTranslator.DemoObjectPayloadData(paths, sourceFilename, sourceFilename)
  {
  }

  /** What the engine answers during one TranslateFileFromPython call. */
  datatype EngineOutcome = EngineOutcome(
    sourceDataCreated: bool,   // UInterchangeManager::CreateSourceData returned an object
    containerCreated: bool,    // NewObject<UInterchangeBaseNodeContainer> returned an object
    elapsed: real,             // seconds the translation took
    importSucceeded: bool)     // ImportAsset returned a non-null result

  datatype PythonOutcome = PythonOutcome(translator: Translator, ok: bool, log: seq<LogEvent>)

  /** TranslateFileFromPython reaches the translation step. */
  predicate ReachesTranslate(pythonEnabled: bool, valid: bool, engine: EngineOutcome) {
    pythonEnabled && valid && engine.sourceDataCreated && engine.containerCreated
  }

  /**
   * The conditions under which TranslateFileFromPython reports success; they do not
   * involve the translator's counters or options.
   */
  predicate PythonSucceeds(paths: EnginePaths, pythonEnabled: bool, fooImportEnabled: bool, automationTesting: bool,
                           filePath: string, engine: EngineOutcome) {
    && ReachesTranslate(pythonEnabled, FileValid(paths, fooImportEnabled, automationTesting, filePath), engine)
    && paths.fileExists(paths.normalize(filePath)) && engine.importSucceeded
  }

  /**
   * TranslateFileFromPython. Refuses when the scripting extensions are off or the file
   * does not validate, and when the engine cannot create the source data or a container;
   * otherwise translates (the only step that moves the counters) and imports. The
   * translator's own SourceData is the same afterwards on every path, and the call
   * succeeds exactly when translation and import both do.
   */
  method TranslateFileFromPython(t: Translator, paths: EnginePaths, pythonEnabled: bool, fooImportEnabled: bool,
                                 automationTesting: bool, filePath: string, destinationPath: string,
                                 engine: EngineOutcome) returns (r: PythonOutcome)
    ensures r.translator.sourceData == t.sourceData && r.translator.options == t.options
    ensures var valid := FileValid(paths, fooImportEnabled, automationTesting, filePath);
      && (!ReachesTranslate(pythonEnabled, valid, engine) ==> r.translator.stats == t.stats && !r.ok)
      && (ReachesTranslate(pythonEnabled, valid, engine) ==>
            r.translator.stats == UpdateStatistics(t.stats, paths.fileExists(paths.normalize(filePath)), engine.elapsed))
    ensures r.ok == PythonSucceeds(paths, pythonEnabled, fooImportEnabled, automationTesting, filePath, engine)
    ensures StatsConsistent(t.stats) ==> StatsConsistent(r.translator.stats)
    ensures !pythonEnabled ==> r.log == [LogTranslationEvent("Warning", "Python extensions are disabled", "")]
    ensures pythonEnabled && !FileValid(paths, fooImportEnabled, automationTesting, filePath) ==>
      r.log == [LogTranslationEvent("Error", ValidateFileForTranslation(paths, fooImportEnabled, automationTesting, filePath).message, filePath)]
    ensures pythonEnabled && FileValid(paths, fooImportEnabled, automationTesting, filePath) && !engine.sourceDataCreated ==>
      r.log == [LogTranslationEvent("Error", "Failed to create source data", filePath)]
    ensures pythonEnabled && FileValid(paths, fooImportEnabled, automationTesting, filePath) && engine.sourceDataCreated &&
            !engine.containerCreated ==>
      r.log == [LogTranslationEvent("Error", "Failed to create node container", filePath)]
  {
    if !pythonEnabled {
      return PythonOutcome(t, false, [LogTranslationEvent("Warning", "Python extensions are disabled", "")]);
    }
    var v := ValidateFileForTranslation(paths, fooImportEnabled, automationTesting, filePath);
    if !v.ok {
      return PythonOutcome(t, false, [LogTranslationEvent("Error", v.message, filePath)]);
    }
    if !engine.sourceDataCreated {
      return PythonOutcome(t, false, [LogTranslationEvent("Error", "Failed to create source data", filePath)]);
    }
    // SourceData is swapped for the file's and put back on every path below.
    var swapped := t.(sourceData := Some(filePath));
    if !engine.containerCreated {
      return PythonOutcome(swapped.(sourceData := t.sourceData), false,
                           [LogTranslationEvent("Error", "Failed to create node container", filePath)]);
    }
    var tr := Translate(swapped, paths, engine.elapsed, Container([]));
    var restored := tr.translator.(sourceData := t.sourceData);
    r := PythonOutcome(restored, tr.ok && engine.importSucceeded, tr.log);
  }

  // ---------------------------------------------------------------------------
  // Batch

  /** The number of "Success" entries. */
  function CountSuccess(results: seq<string>): (n: nat)
    ensures n <= |results|
  {
    if |results| == 0 then 0
    else CountSuccess(results[..|results| - 1]) + (if results[|results| - 1] == "Success" then 1 else 0)
  }

  lemma CountSuccessAppend(results: seq<string>, entry: string)
    ensures CountSuccess(results + [entry]) == CountSuccess(results) + (if entry == "Success" then 1 else 0)
  {
    assert (results + [entry])[..|results|] == results;
  }

  /** The "Success" or "Failed" entry a file of a batch gets. */
  function BatchEntry(paths: EnginePaths, pythonEnabled: bool, fooImportEnabled: bool, automationTesting: bool,
                      filePath: string, engine: EngineOutcome): string
  {
    if PythonSucceeds(paths, pythonEnabled, fooImportEnabled, automationTesting, filePath, engine) then "Success" else "Failed"
  }

  /** One file of a batch: its entry is appended and counted. */
  method TranslateNext(t: Translator, paths: EnginePaths, pythonEnabled: bool, fooImportEnabled: bool,
                       automationTesting: bool, filePath: string, destinationPath: string,
                       engine: EngineOutcome, results: seq<string>, successCount: nat)
    returns (results': seq<string>, successCount': nat, t': Translator)
    requires StatsConsistent(t.stats) && successCount == CountSuccess(results)
    ensures results' == results + [BatchEntry(paths, pythonEnabled, fooImportEnabled, automationTesting, filePath, engine)]
    ensures successCount' == CountSuccess(results')
    ensures StatsConsistent(t'.stats)
  {
    var out := TranslateFileFromPython(t, paths, pythonEnabled, fooImportEnabled, automationTesting,
                                       filePath, destinationPath, engine);
    var entry := if out.ok then "Success" else "Failed";
    CountSuccessAppend(results, entry);
    results' := results + [entry];
    successCount' := if out.ok then successCount + 1 else successCount;
    t' := out.translator;
  }

  /**
   * The loop of BatchTranslateFiles: each file through TranslateFileFromPython with the
   * same translator, in order.
   */
  method TranslateEach(t: Translator, paths: EnginePaths, pythonEnabled: bool, fooImportEnabled: bool,
                       automationTesting: bool, filePaths: seq<string>, destinationPath: string,
                       engine: seq<EngineOutcome>)
    returns (successCount: nat, results: seq<string>)
    requires |engine| == |filePaths|
    requires StatsConsistent(t.stats)
    ensures |results| == |filePaths|
    ensures forall i :: 0 <= i < |filePaths| ==>
      results[i] == BatchEntry(paths, pythonEnabled, fooImportEnabled, automationTesting, filePaths[i], engine[i])
    ensures successCount == CountSuccess(results)
  {
    results := [];
    successCount := 0;
    var translator := t;
    var i := 0;
    while i < |filePaths|
      invariant 0 <= i <= |filePaths|
      invariant |results| == i
      invariant forall j :: 0 <= j < i ==>
        results[j] == BatchEntry(paths, pythonEnabled, fooImportEnabled, automationTesting, filePaths[j], engine[j])
      invariant successCount == CountSuccess(results)
      invariant StatsConsistent(translator.stats)
    {
      results, successCount, translator := TranslateNext(translator, paths, pythonEnabled, fooImportEnabled,
                                                         automationTesting, filePaths[i], destinationPath,
                                                         engine[i], results, successCount);
      i := i + 1;
    }
  }

  /** UPythonTranslatorManager::CreateTranslator, when it succeeds: a translator in its initial state. */
  method CreateTranslator() returns (t: Translator)
    ensures t.options == DefaultOptions() && t.stats == ZeroStats && t.sourceData.None?
  {
    t := NewTranslator();
  }

  /**
   * UPythonTranslatorManager::BatchTranslateFiles: one fresh translator for the batch,
   * one "Success" or "Failed" entry per file in order, and the count of successes. When
   * no translator can be created the results are empty and the count is zero.
   */
  method BatchTranslateFiles(paths: EnginePaths, pythonEnabled: bool, fooImportEnabled: bool, automationTesting: bool,
                             translatorCreated: bool, filePaths: seq<string>, destinationPath: string,
                             engine: seq<EngineOutcome>)
    returns (successCount: nat, results: seq<string>)
    requires |engine| == |filePaths|
    ensures !translatorCreated ==> successCount == 0 && results == []
    ensures translatorCreated ==> |results| == |filePaths|
    ensures translatorCreated ==> forall i :: 0 <= i < |filePaths| ==>
      results[i] == BatchEntry(paths, pythonEnabled, fooImportEnabled, automationTesting, filePaths[i], engine[i])
    ensures successCount == CountSuccess(results)
  {
    if !translatorCreated {
      return 0, [];
    }
    var t := CreateTranslator();
    successCount, results := TranslateEach(t, paths, pythonEnabled, fooImportEnabled,
                                              automationTesting, filePaths, destinationPath, engine);
  }
}
