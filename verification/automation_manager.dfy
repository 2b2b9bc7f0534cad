/**
 * AutomationManager (manager.py): rule-driven processing of single files, quality checks,
 * file-name patterns, the watch-folder list and batch imports, all on top of one shared
 * Python translator wrapper.
 *
 * The configuration is the JSON dictionary the manager loads; a key the dictionary may
 * lack is an `Option`, and the default `.get` supplies is written where it is read.
 * The clock (`datetime.now`, `time.time`) arrives as parameters.
 */
module AutomationManager {
  import opened Wrappers
  import opened Text
  import opened Host
  import FooTranslatorExtended
  import PyTranslators

  // ---------------------------------------------------------------------------
  // Configuration

  /** One entry of "import_rules"; `otherKeys` says the dictionary holds keys besides these four. */
  datatype ImportRule = ImportRule(
    destination: Option<string>,
    translatorOptions: Option<seq<(string, string)>>,  // the dict's pairs in insertion order
    filePatterns: Option<seq<string>>,
    autoImport: Option<bool>,
    otherKeys: bool)

  /** An empty rule dictionary is falsy, so `if not import_rules` treats it like a missing one. */
  predicate EmptyRule(r: ImportRule) {
    r.destination.None? && r.translatorOptions.None? && r.filePatterns.None? && r.autoImport.None? && !r.otherKeys
  }

  /** "quality_checks"; a missing section reads as all-absent. */
  datatype QualityConfig = QualityConfig(
    enabled: Option<bool>,
    maxFileSizeMb: Option<int>,
    minFileSizeBytes: Option<int>,
    allowedExtensions: Option<seq<string>>)

  /** One entry of "watch_folders". */
  datatype WatchEntry = WatchEntry(path: string, category: string, enabled: bool, addedTime: string)

  datatype Config = Config(watchFolders: seq<WatchEntry>, importRules: map<string, ImportRule>, qualityChecks: QualityConfig)

  /** The counters of `self.statistics` that processing moves. */
  datatype Statistics = Statistics(
    totalProcessed: nat,
    successfulImports: nat,
    failedImports: nat,
    lastActivity: Option<string>,
    filesPerCategory: map<string, nat>,
    processingTimes: seq<real>)

  datatype Manager = Manager(config: Config, translator: PyTranslators.Wrapper, statistics: Statistics)

  /** No call has counted both a success and a failure. */
  predicate Bounded(s: Statistics) {
    s.successfulImports + s.failedImports <= s.totalProcessed
  }

  // ---------------------------------------------------------------------------
  // Quality checks

  const DefaultMaxFileSizeMb: int := 100
  const DefaultMinFileSizeBytes: int := 1024

  function MaxFileSize(q: QualityConfig): int {
    q.maxFileSizeMb.GetOr(DefaultMaxFileSizeMb) * 1024 * 1024
  }

  function MinFileSize(q: QualityConfig): int {
    q.minFileSizeBytes.GetOr(DefaultMinFileSizeBytes)
  }

  /** The lower-cased extension is allowed: always when the list is empty, else by membership. */
  predicate ExtensionAllowed(q: QualityConfig, os: PyOs, filePath: string) {
    var allowed := q.allowedExtensions.GetOr([]);
    allowed == [] || Lower(os.splitextExt(filePath)) in allowed
  }

  /**
   * _perform_quality_checks: everything passes when the checks are disabled; otherwise the
   * file must exist, its size must lie within [min, max·1024·1024], its extension must be
   * allowed, and the translator must validate it, checked in that order.
   */
  function QualityChecks(m: Manager, os: PyOs, bridge: PyTranslators.Bridge, filePath: string): (r: bool)
    ensures !m.config.qualityChecks.enabled.GetOr(true) ==> r
    ensures m.config.qualityChecks.enabled.GetOr(true) && r ==>
      && os.pathExists(filePath)
      && MinFileSize(m.config.qualityChecks) <= os.getsize(filePath) <= MaxFileSize(m.config.qualityChecks)
      && ExtensionAllowed(m.config.qualityChecks, os, filePath)
      && PyTranslators.ValidateFile(m.translator, os, bridge, filePath).valid
    ensures (&& os.pathExists(filePath)
             && MinFileSize(m.config.qualityChecks) <= os.getsize(filePath) <= MaxFileSize(m.config.qualityChecks)
             && ExtensionAllowed(m.config.qualityChecks, os, filePath)
             && PyTranslators.ValidateFile(m.translator, os, bridge, filePath).valid) ==> r
  {
    var q := m.config.qualityChecks;
    if !q.enabled.GetOr(true) then true
    else if !os.pathExists(filePath) then false
    else if os.getsize(filePath) > MaxFileSize(q) then false
    else if os.getsize(filePath) < MinFileSize(q) then false
    else if !ExtensionAllowed(q, os, filePath) then false
    else PyTranslators.ValidateFile(m.translator, os, bridge, filePath).valid
  }

  /**
   * The allowed list is compared as written with the lower-cased extension, so an entry
   * with an upper-case letter never admits anything.
   */
  lemma UpperCaseExtensionNeverAllowed(q: QualityConfig, os: PyOs, filePath: string, k: nat, i: nat)
    requires q.allowedExtensions.Some? && k < |q.allowedExtensions.value|
    requires i < |q.allowedExtensions.value[k]| && 'A' <= q.allowedExtensions.value[k][i] <= 'Z'
    ensures Lower(os.splitextExt(filePath)) != q.allowedExtensions.value[k]
  {
  }

  // ---------------------------------------------------------------------------
  // File patterns

  /** Some pattern, lower-cased, matches the name. */
  function AnyPatternMatches(os: PyOs, name: string, patterns: seq<string>): (r: bool)
    ensures r <==> exists i :: 0 <= i < |patterns| && os.fnmatch(name, Lower(patterns[i]))
  {
    if |patterns| == 0 then false
    else if os.fnmatch(name, Lower(patterns[0])) then true
    else
      var r := AnyPatternMatches(os, name, patterns[1..]);
      assert forall i :: 1 <= i < |patterns| ==> patterns[i] == patterns[1..][i - 1];
      r
  }

  /**
   * _matches_file_patterns: no patterns accepts every file; otherwise the lower-cased base
   * name must match one of the lower-cased patterns.
   */
  function MatchesFilePatterns(os: PyOs, filePath: string, patterns: seq<string>): (r: bool)
    ensures patterns == [] ==> r
    ensures patterns != [] ==> (r <==> exists i :: 0 <= i < |patterns| && os.fnmatch(Lower(os.basename(filePath)), Lower(patterns[i])))
  {
    patterns == [] || AnyPatternMatches(os, Lower(os.basename(filePath)), patterns)
  }

  /** More patterns never reject a file fewer patterns accepted. */
  lemma MatchesFilePatternsMonotone(os: PyOs, filePath: string, patterns: seq<string>, more: seq<string>)
    requires patterns != []
    requires MatchesFilePatterns(os, filePath, patterns)
    ensures MatchesFilePatterns(os, filePath, patterns + more)
  {
    var i :| 0 <= i < |patterns| && os.fnmatch(Lower(os.basename(filePath)), Lower(patterns[i]));
    assert (patterns + more)[i] == patterns[i];
  }

  /** Two paths whose base names differ only in case match the same patterns. */
  lemma MatchesFilePatternsIgnoresCase(os: PyOs, a: string, b: string, patterns: seq<string>)
    requires Lower(os.basename(a)) == Lower(os.basename(b))
    ensures MatchesFilePatterns(os, a, patterns) == MatchesFilePatterns(os, b, patterns)
  {
  }

  // ---------------------------------------------------------------------------
  // Processing one file

  /** At most the last 100 processing times are kept. */
  const MaxProcessingTimes: nat := 100

  /** Appends a time and keeps only the most recent 100. */
  function RecordTime(times: seq<real>, t: real): (r: seq<real>)
    ensures |times| < MaxProcessingTimes ==> r == times + [t]
    ensures |times| >= MaxProcessingTimes ==> |r| == MaxProcessingTimes
    ensures |r| <= MaxProcessingTimes || |r| == |times| + 1
    ensures 0 < |r| && r[|r| - 1] == t
    ensures r == (times + [t])[|times| + 1 - |r|..]
  {
    var all := times + [t];
    if |all| > MaxProcessingTimes then all[|all| - MaxProcessingTimes..] else all
  }

  /** A history that respects the bound still does after one more call. */
  lemma RecordTimeBounded(times: seq<real>, t: real)
    requires |times| <= MaxProcessingTimes
    ensures |RecordTime(times, t)| <= MaxProcessingTimes
  {
  }

  /** The rule that admits a file of this category, if any: present, non-empty, auto-import on. */
  predicate RuleAdmits(c: Config, category: string) {
    && category in c.importRules
    && !EmptyRule(c.importRules[category])
    && c.importRules[category].autoImport.GetOr(true)
  }

  /** The default destination of an import. */
  const DefaultDestination: string := "/Game/ImportedAssets/"

  /** What the statistics look like once a call has been counted, before any rule is read. */
  function Counted(s: Statistics, category: string, now: string): (r: Statistics)
    ensures r.totalProcessed == s.totalProcessed + 1
    ensures r.successfulImports == s.successfulImports && r.failedImports == s.failedImports
    ensures r.lastActivity == Some(now)
    ensures category in r.filesPerCategory
    ensures r.filesPerCategory[category] == (if category in s.filesPerCategory then s.filesPerCategory[category] else 0) + 1
    ensures forall k :: k in s.filesPerCategory && k != category ==> k in r.filesPerCategory && r.filesPerCategory[k] == s.filesPerCategory[k]
    ensures r.filesPerCategory.Keys == s.filesPerCategory.Keys + {category}
    ensures r.processingTimes == s.processingTimes
  {
    var n := if category in s.filesPerCategory then s.filesPerCategory[category] else 0;
    s.(totalProcessed := s.totalProcessed + 1, lastActivity := Some(now),
       filesPerCategory := s.filesPerCategory[category := n + 1])
  }

  /** The call gets past the rule, the quality checks and the patterns, and reaches the import. */
  predicate ReachesImport(m: Manager, os: PyOs, bridge: PyTranslators.Bridge, filePath: string, category: string) {
    && RuleAdmits(m.config, category)
    && QualityChecks(m, os, bridge, filePath)
    && MatchesFilePatterns(os, filePath, m.config.importRules[category].filePatterns.GetOr([]))
  }

  /** set_options runs only for a non-empty options dictionary; a missing one counts as empty. */
  function ConfigureTranslator(w: PyTranslators.Wrapper, rule: ImportRule): (r: PyTranslators.Wrapper)
    ensures r.counters == w.counters && r.instance.Some? == w.instance.Some?
    ensures |rule.translatorOptions.GetOr([])| == 0 ==> r == w
    ensures |rule.translatorOptions.GetOr([])| > 0 ==> r == PyTranslators.SetOptions(w, rule.translatorOptions.value)
  {
    var options := rule.translatorOptions.GetOr([]);
    if |options| == 0 then w else PyTranslators.SetOptions(w, options)
  }

  /**
   * process_single_file. The call is counted (total, category, last activity) before
   * anything else. A missing or empty rule, disabled auto-import and a pattern mismatch
   * return false without counting a failure; a failed quality check counts one. Only a
   * file that passes all of them is imported, after the rule's options are applied, and
   * the import's outcome is counted. Every call records its processing time.
   */
  method ProcessSingleFile(m: Manager, os: PyOs, bridge: PyTranslators.Bridge, filePath: string, category: string,
                           now: string, engine: FooTranslatorExtended.EngineOutcome, importElapsed: real,
                           processingTime: real)
    returns (r: Manager, ok: bool)
    ensures r.config == m.config
    ensures r.statistics.totalProcessed == m.statistics.totalProcessed + 1
    ensures r.statistics.lastActivity == Some(now)
    ensures r.statistics.filesPerCategory == Counted(m.statistics, category, now).filesPerCategory
    ensures r.statistics.processingTimes == RecordTime(m.statistics.processingTimes, processingTime)
    ensures !RuleAdmits(m.config, category) ==>
      !ok && r.translator == m.translator
      && r.statistics.successfulImports == m.statistics.successfulImports
      && r.statistics.failedImports == m.statistics.failedImports
    ensures RuleAdmits(m.config, category) && !QualityChecks(m, os, bridge, filePath) ==>
      !ok && r.translator == m.translator
      && r.statistics.successfulImports == m.statistics.successfulImports
      && r.statistics.failedImports == m.statistics.failedImports + 1
    ensures RuleAdmits(m.config, category) && QualityChecks(m, os, bridge, filePath) && !ReachesImport(m, os, bridge, filePath, category) ==>
      !ok && r.translator == m.translator
      && r.statistics.successfulImports == m.statistics.successfulImports
      && r.statistics.failedImports == m.statistics.failedImports
    ensures ReachesImport(m, os, bridge, filePath, category) ==>
      && r.translator.counters.total == m.translator.counters.total + 1
      && (ok ==> r.statistics.successfulImports == m.statistics.successfulImports + 1
                 && r.statistics.failedImports == m.statistics.failedImports)
      && (!ok ==> r.statistics.failedImports == m.statistics.failedImports + 1
                  && r.statistics.successfulImports == m.statistics.successfulImports)
    ensures ReachesImport(m, os, bridge, filePath, category) && m.translator.instance.None? ==>
      (ok <==> os.pathExists(filePath) && PyTranslators.MockFooPath(filePath))
    ensures ReachesImport(m, os, bridge, filePath, category) ==>
      ok == PyTranslators.ImportSucceeds(m.translator, os, bridge, filePath, engine)
    ensures r.translator.instance.Some? == m.translator.instance.Some?
    ensures ReachesImport(m, os, bridge, filePath, category) && m.translator.instance.Some? ==>
      r.translator.instance.value.options ==
        ConfigureTranslator(m.translator, m.config.importRules[category]).instance.value.options
    ensures ok ==> ReachesImport(m, os, bridge, filePath, category)
    ensures Bounded(m.statistics) ==> Bounded(r.statistics)
    ensures PyTranslators.Balanced(m.translator.counters) ==> PyTranslators.Balanced(r.translator.counters)
  {
    var s := Counted(m.statistics, category, now);
    var translator := m.translator;
    ok := false;
    if !RuleAdmits(m.config, category) {
      // no rule, an empty rule, or auto-import switched off
    } else if !QualityChecks(m, os, bridge, filePath) {
      s := s.(failedImports := s.failedImports + 1);
    } else if !MatchesFilePatterns(os, filePath, m.config.importRules[category].filePatterns.GetOr([])) {
      // the name matches none of the rule's patterns
    } else {
      var rule := m.config.importRules[category];
      translator := ConfigureTranslator(translator, rule);
      translator, ok := PyTranslators.ImportFile(translator, os, bridge, filePath, rule.destination.GetOr(DefaultDestination),
                                                 engine, importElapsed);
      s := if ok then s.(successfulImports := s.successfulImports + 1) else s.(failedImports := s.failedImports + 1);
    }
    s := s.(processingTimes := RecordTime(s.processingTimes, processingTime));
    r := Manager(m.config, translator, s);
  }

  /**
   * With quality checks on and no engine instance, a file that reaches the import is
   * imported: the checks already required what the mock import asks for.
   */
  lemma MockImportAfterQualityChecksSucceeds(m: Manager, os: PyOs, bridge: PyTranslators.Bridge, filePath: string, category: string)
    requires m.translator.instance.None? && m.config.qualityChecks.enabled.GetOr(true)
    requires ReachesImport(m, os, bridge, filePath, category)
    ensures os.pathExists(filePath) && PyTranslators.MockFooPath(filePath)
  {
    assert PyTranslators.ValidateFile(m.translator, os, bridge, filePath).valid;
  }

  // ---------------------------------------------------------------------------
  // Watch folders

  /** The paths of the watch list. */
  function Paths(ws: seq<WatchEntry>): (r: seq<string>)
    ensures |r| == |ws|
    ensures forall i :: 0 <= i < |ws| ==> r[i] == ws[i].path
  {
    if |ws| == 0 then [] else Paths(ws[..|ws| - 1]) + [ws[|ws| - 1].path]
  }

  /** No path is listed twice. */
  predicate UniquePaths(ws: seq<WatchEntry>) {
    forall i, j :: 0 <= i < j < |ws| ==> ws[i].path != ws[j].path
  }

  datatype WatchChange = WatchChange(config: Config, added: bool)

  /**
   * add_watch_folder: a folder that does not exist, or whose absolute path is already
   * listed, leaves the list alone and returns false; otherwise the entry is appended.
   */
  function AddWatchFolder(c: Config, os: PyOs, folderPath: string, category: string, enabled: bool, now: string): (r: WatchChange)
    ensures r.added <==> os.pathExists(folderPath) && os.abspath(folderPath) !in Paths(c.watchFolders)
    ensures !r.added ==> r.config == c
    ensures r.added ==> r.config == c.(watchFolders := c.watchFolders + [WatchEntry(os.abspath(folderPath), category, enabled, now)])
    ensures UniquePaths(c.watchFolders) ==> UniquePaths(r.config.watchFolders)
  {
    if !os.pathExists(folderPath) then WatchChange(c, false)
    else
      var entry := WatchEntry(os.abspath(folderPath), category, enabled, now);
      if entry.path in Paths(c.watchFolders) then WatchChange(c, false)
      else
        var ws := c.watchFolders + [entry];
        assert forall i :: 0 <= i < |c.watchFolders| ==> Paths(c.watchFolders)[i] == c.watchFolders[i].path;
        WatchChange(c.(watchFolders := ws), true)
  }

  /** The entries whose path differs from `p`, in their original order. */
  function WithoutPath(ws: seq<WatchEntry>, p: string): (r: seq<WatchEntry>)
    ensures forall e :: e in r <==> e in ws && e.path != p
    ensures |r| <= |ws|
  {
    if |ws| == 0 then []
    else
      var rest := WithoutPath(ws[..|ws| - 1], p);
      assert ws == ws[..|ws| - 1] + [ws[|ws| - 1]];
      if ws[|ws| - 1].path == p then rest else rest + [ws[|ws| - 1]]
  }

  /** Keeping a sub-list of a list without repeated paths keeps it without repeated paths. */
  lemma {:induction false} WithoutPathUnique(ws: seq<WatchEntry>, p: string)
    ensures UniquePaths(ws) ==> UniquePaths(WithoutPath(ws, p))
  {
    if UniquePaths(ws) && |ws| > 0 {
      var init := ws[..|ws| - 1];
      var last := ws[|ws| - 1];
      assert UniquePaths(init);
      WithoutPathUnique(init, p);
      var rest := WithoutPath(init, p);
      if last.path != p {
        forall e | e in rest
          ensures e.path != last.path
        {
          assert e in init;
          var i :| 0 <= i < |init| && init[i] == e;
          assert ws[i] == e;
        }
        var r := rest + [last];
        forall i, j | 0 <= i < j < |r|
          ensures r[i].path != r[j].path
        {
          if j == |rest| {
            assert r[i] in rest;
          }
        }
      }
    }
  }

  /** A path that is not listed removes nothing. */
  lemma {:induction false} WithoutAbsentPath(ws: seq<WatchEntry>, p: string)
    requires p !in Paths(ws)
    ensures WithoutPath(ws, p) == ws
  {
    if |ws| > 0 {
      var init := ws[..|ws| - 1];
      assert Paths(ws)[|ws| - 1] == ws[|ws| - 1].path;
      assert forall i :: 0 <= i < |init| ==> Paths(init)[i] == Paths(ws)[i];
      assert p !in Paths(init);
      WithoutAbsentPath(init, p);
      assert ws == init + [ws[|ws| - 1]];
    }
  }

  /**
   * remove_watch_folder: every entry with the folder's absolute path is dropped, all the
   * others stay in their order, and nothing else in the configuration changes.
   */
  function RemoveWatchFolder(c: Config, os: PyOs, folderPath: string): (r: Config)
    ensures r.watchFolders == WithoutPath(c.watchFolders, os.abspath(folderPath))
    ensures forall e :: e in r.watchFolders <==> e in c.watchFolders && e.path != os.abspath(folderPath)
    ensures r.importRules == c.importRules && r.qualityChecks == c.qualityChecks
    ensures UniquePaths(c.watchFolders) ==> UniquePaths(r.watchFolders)
  {
    var abs := os.abspath(folderPath);
    WithoutPathUnique(c.watchFolders, abs);
    c.(watchFolders := WithoutPath(c.watchFolders, abs))
  }

  /** Removing a folder right after adding it gives the configuration back. */
  lemma AddThenRemove(c: Config, os: PyOs, folderPath: string, category: string, enabled: bool, now: string)
    requires AddWatchFolder(c, os, folderPath, category, enabled, now).added
    ensures RemoveWatchFolder(AddWatchFolder(c, os, folderPath, category, enabled, now).config, os, folderPath) == c
  {
    var abs := os.abspath(folderPath);
    var ws := c.watchFolders + [WatchEntry(abs, category, enabled, now)];
    WithoutAbsentPath(c.watchFolders, abs);
    assert ws[..|ws| - 1] == c.watchFolders;
  }

  // ---------------------------------------------------------------------------
  // Batch import

  /** One entry of "details". */
  datatype Detail =
    | Imported(file: string, destination: string)   // status "success"
    | NotImported(file: string, error: string)      // status "failed", error "Import failed"

  /** The number of imported entries. */
  function CountImported(details: seq<Detail>): (n: nat)
    ensures n <= |details|
  {
    if |details| == 0 then 0
    else CountImported(details[..|details| - 1]) + (if details[|details| - 1].Imported? then 1 else 0)
  }

  lemma CountImportedAppend(details: seq<Detail>, d: Detail)
    ensures CountImported(details + [d]) == CountImported(details) + (if d.Imported? then 1 else 0)
  {
    assert (details + [d])[..|details|] == details;
  }

  /** The dictionary batch_import_files returns (the clock fields aside). */
  datatype BatchResult = BatchResult(totalFiles: nat, successful: nat, failed: nat, details: seq<Detail>, successRate: real)

  /** "success_rate": the percentage of successes, 0 for an empty batch. */
  function SuccessRate(successful: nat, total: nat): (r: real)
    ensures total == 0 ==> r == 0.0
    ensures total > 0 ==> r * (total as real) == (successful as real) * 100.0
  {
    if total > 0 then (successful as real) / (total as real) * 100.0 else 0.0
  }

  /** One file of a batch: imported through the shared wrapper, its detail appended and counted. */
  method ImportNext(w: PyTranslators.Wrapper, os: PyOs, bridge: PyTranslators.Bridge, filePath: string,
                    destinationPath: string, engine: FooTranslatorExtended.EngineOutcome, elapsed: real,
                    details: seq<Detail>, successful: nat)
    returns (w': PyTranslators.Wrapper, details': seq<Detail>, successful': nat)
    requires successful == CountImported(details)
    ensures |details'| == |details| + 1 && details'[..|details|] == details
    ensures details'[|details|].file == filePath
    ensures details'[|details|].Imported? ==> details'[|details|].destination == destinationPath
    ensures details'[|details|].NotImported? ==> details'[|details|].error == "Import failed"
    ensures details'[|details|].Imported? <==> PyTranslators.ImportSucceeds(w, os, bridge, filePath, engine)
    ensures w'.instance.Some? == w.instance.Some?
    ensures successful' == CountImported(details')
    ensures w'.counters.total == w.counters.total + 1
    ensures PyTranslators.Balanced(w.counters) ==> PyTranslators.Balanced(w'.counters)
  {
    var ok;
    w', ok := PyTranslators.ImportFile(w, os, bridge, filePath, destinationPath, engine, elapsed);
    var d := if ok then Imported(filePath, destinationPath) else NotImported(filePath, "Import failed");
    CountImportedAppend(details, d);
    details' := details + [d];
    successful' := if ok then successful + 1 else successful;
  }

  /**
   * batch_import_files: every file goes through the translator's import_file in order;
   * there is one detail per file, in the same order, successes and failures add up to
   * the number of files, and the manager's own processing statistics are not touched.
   */
  method BatchImportFiles(m: Manager, os: PyOs, bridge: PyTranslators.Bridge, filePaths: seq<string>,
                          destinationPath: string, engine: seq<FooTranslatorExtended.EngineOutcome>, elapsed: seq<real>)
    returns (result: BatchResult, r: Manager)
    requires |engine| == |filePaths| && |elapsed| == |filePaths|
    ensures result.totalFiles == |filePaths|
    ensures result.successful + result.failed == result.totalFiles
    ensures |result.details| == |filePaths|
    ensures forall i :: 0 <= i < |filePaths| ==> result.details[i].file == filePaths[i]
    ensures forall i :: 0 <= i < |filePaths| && result.details[i].Imported? ==> result.details[i].destination == destinationPath
    ensures forall i :: 0 <= i < |filePaths| ==>
      (result.details[i].Imported? <==> PyTranslators.ImportSucceeds(m.translator, os, bridge, filePaths[i], engine[i]))
    ensures result.successful == CountImported(result.details)
    ensures result.successRate == SuccessRate(result.successful, result.totalFiles)
    ensures r.config == m.config && r.statistics == m.statistics
    ensures r.translator.counters.total == m.translator.counters.total + |filePaths|
    ensures PyTranslators.Balanced(m.translator.counters) ==> PyTranslators.Balanced(r.translator.counters)
  {
    var w := m.translator;
    var details: seq<Detail> := [];
    var successful: nat := 0;
    var i := 0;
    while i < |filePaths|
      invariant 0 <= i <= |filePaths|
      invariant |details| == i
      invariant forall j :: 0 <= j < i ==> details[j].file == filePaths[j]
      invariant forall j :: 0 <= j < i && details[j].Imported? ==> details[j].destination == destinationPath
      invariant forall j :: 0 <= j < i ==>
        (details[j].Imported? <==> PyTranslators.ImportSucceeds(m.translator, os, bridge, filePaths[j], engine[j]))
      invariant w.instance.Some? == m.translator.instance.Some?
      invariant successful == CountImported(details)
      invariant w.counters.total == m.translator.counters.total + i
      invariant PyTranslators.Balanced(m.translator.counters) ==> PyTranslators.Balanced(w.counters)
    {
      w, details, successful := ImportNext(w, os, bridge, filePaths[i], destinationPath, engine[i], elapsed[i],
                                           details, successful);
      i := i + 1;
    }
    var failed := |filePaths| - successful;
    result := BatchResult(|filePaths|, successful, failed, details, SuccessRate(successful, |filePaths|));
    r := m.(translator := w);
  }
}
