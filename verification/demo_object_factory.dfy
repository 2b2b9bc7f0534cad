/**
 * UCustomDemoObjectFactory: the three phases that turn a DemoObject factory node into a
 * UDemoObject asset. BeginImportAsset (game thread) finds or creates the asset and decides
 * whether to skip it; ImportAsset (async) fetches the payload and fills the asset's
 * SourceData; SetupObject (game thread) applies the node's settings. The factory's one
 * piece of state is the bSkipImport flag, which only Begin ever raises and nothing lowers.
 *
 * Objects are opaque handles; what the engine answers about them (casts, TryLoad,
 * NewObject) is given as input.
 */
module DemoObjectFactory {
  import opened Wrappers
  import opened Host
  import opened Interchange
  import opened FooTranslator

  /** An object handle; `isDemoObject` is whether Cast<UDemoObject> succeeds on it. */
  datatype Asset = Asset(id: int, isDemoObject: bool)

  /** EInterchangeTranslatorAssetType, as far as the factory distinguishes it. */
  datatype TranslatorAssetType = NoAssetTypes | Textures | OtherAssetTypes

  /** The translator as the factory sees it: its asset type and, if implemented, the payload interface. */
  datatype Translator = Translator(
    assetType: TranslatorAssetType,
    payloadInterface: Option<string -> Option<PayloadData>>)

  /** The asset node argument, as far as the factory reads it. */
  datatype AssetNode = AssetNode(
    isDemoObjectFactoryNode: bool,   // Cast<UCustomDemoObjectFactoryNode> succeeds
    objectClassIsDemoObject: bool,   // GetObjectClass() is set and derives from UDemoObject
    payloadKey: Option<string>,
    referenceObject: Option<Asset>)  // GetCustomReferenceObject, then TryLoad

  datatype Factory = Factory(skipImport: bool)

  /** The messages the factory reports; the last one goes to the log only. */
  datatype FactoryError =
    | AssetNodeNull | NodeClassMismatch | DemoObjectCreateFail
    | WrongObjectType | InvalidPayloadKey | CannotRetrievePayload
    | CannotCreateAsync | FailCreatingAsset | MissingPayloadInterface

  /** FImportAssetResult plus the message reported, if any. */
  datatype ImportResult = ImportResult(imported: Option<Asset>, skipAsset: bool, error: Option<FactoryError>)

  /** The translator the Foo format uses: no asset type, payload from the source file. */
  function FooFactoryTranslator(paths: EnginePaths, sourceFilename: string): (t: Translator)
    ensures t.assetType == NoAssetTypes && t.payloadInterface.Some?
  {
    Translator(NoAssetTypes, Some(key => DemoObjectPayloadData(paths, sourceFilename, key)))
  }

  // ---------------------------------------------------------------------------
  // BeginImportAsset_GameThread

  datatype BeginOutcome = BeginOutcome(factory: Factory, result: ImportResult)

  /** The asset already there: the reimport object, else the loaded reference object. */
  function ExistingAsset(node: AssetNode, reimportObject: Option<Asset>): Option<Asset> {
    if reimportObject.Some? then reimportObject else node.referenceObject
  }

  /** An existing asset is left alone unless this is a reimport or a pure texture translator. */
  predicate KeepsExisting(reimportObject: Option<Asset>, translator: Translator) {
    reimportObject.None? && translator.assetType != Textures
  }

  /** Could not create: report, raise the skip flag, skip the asset. */
  function BeginFailure(e: FactoryError): BeginOutcome {
    BeginOutcome(Factory(true), ImportResult(None, true, Some(e)))
  }

  /**
   * BeginImportAsset. `newObject` is what NewObject returns when no asset exists yet.
   * The skip flag afterwards is raised exactly when the asset is skipped; a reported
   * error always skips; an asset is returned exactly when there is no error, and it is
   * the new object when none existed and the existing DemoObject otherwise.
   */
  function BeginImportAsset(f: Factory, node: Option<AssetNode>, reimportObject: Option<Asset>,
                            translator: Translator, newObject: Option<Asset>): (r: BeginOutcome)
    ensures r.factory.skipImport == (f.skipImport || r.result.skipAsset)
    ensures r.result.error.Some? ==> r.result.skipAsset && r.result.imported.None?
    ensures r.result.imported.Some? <==> r.result.error.None?
    ensures (node.None? || !node.value.isDemoObjectFactoryNode) ==> r.result.error == Some(AssetNodeNull)
    ensures node.Some? && node.value.isDemoObjectFactoryNode && !node.value.objectClassIsDemoObject ==>
      r.result.error == Some(NodeClassMismatch) && r.factory.skipImport && r.result.imported.None?
    ensures node.Some? && node.value.isDemoObjectFactoryNode && node.value.objectClassIsDemoObject ==>
      var existing := ExistingAsset(node.value, reimportObject);
      && (existing.None? ==> r.result.imported == newObject && r.result.skipAsset == newObject.None?)
      && (existing.Some? && existing.value.isDemoObject ==>
            r.result.imported == existing && r.result.skipAsset == KeepsExisting(reimportObject, translator))
      && (existing.Some? && !existing.value.isDemoObject ==> r.result.error == Some(DemoObjectCreateFail))
  {
    if node.None? || !node.value.isDemoObjectFactoryNode then BeginFailure(AssetNodeNull)
    else if !node.value.objectClassIsDemoObject then BeginFailure(NodeClassMismatch)
    else
      var existing := ExistingAsset(node.value, reimportObject);
      if existing.None? then
        if newObject.None? then BeginFailure(DemoObjectCreateFail)
        else BeginOutcome(f, ImportResult(newObject, false, None))
      else
        var skip := KeepsExisting(reimportObject, translator);
        if !existing.value.isDemoObject then BeginFailure(DemoObjectCreateFail)
        else BeginOutcome(if skip then Factory(true) else f, ImportResult(existing, skip, None))
  }

  /**
   * The Foo translator has no asset type, so a first import never overwrites a DemoObject
   * that is already there: it is returned and skipped.
   */
  lemma FooImportKeepsExistingAsset(f: Factory, node: AssetNode, paths: EnginePaths, src: string, newObject: Option<Asset>)
    requires node.isDemoObjectFactoryNode && node.objectClassIsDemoObject
    requires node.referenceObject.Some? && node.referenceObject.value.isDemoObject
    ensures var r := BeginImportAsset(f, Some(node), None, FooFactoryTranslator(paths, src), newObject);
      r.result.skipAsset && r.factory.skipImport && r.result.imported == node.referenceObject
  {
  }

  // ---------------------------------------------------------------------------
  // ImportAsset_Async

  /** The result, and the text written to the asset's SourceData, if any. */
  datatype AsyncOutcome = AsyncOutcome(result: ImportResult, sourceData: Option<string>)

  function AsyncFailure(f: Factory, e: FactoryError): AsyncOutcome {
    AsyncOutcome(ImportResult(None, f.skipImport, Some(e)), None)
  }

  /** Every check of the async phase passes, so the payload is written to the existing asset. */
  predicate AsyncSucceeds(f: Factory, node: Option<AssetNode>, translator: Translator) {
    && !f.skipImport && node.Some?
    && node.value.objectClassIsDemoObject && node.value.isDemoObjectFactoryNode
    && node.value.payloadKey.Some? && translator.payloadInterface.Some?
    && translator.payloadInterface.value(node.value.payloadKey.value).Some?
    && node.value.referenceObject.Some? && node.value.referenceObject.value.isDemoObject
  }

  /**
   * ImportAsset. The skip flag is reported as is. A skipped asset returns the referenced
   * asset and writes nothing. SourceData is written exactly when every check passes, and
   * then it receives the payload's text.
   */
  function ImportAssetAsync(f: Factory, node: Option<AssetNode>, translator: Translator): (r: AsyncOutcome)
    ensures r.result.skipAsset == f.skipImport
    ensures f.skipImport && node.Some? && node.value.objectClassIsDemoObject ==>
      r.result.imported == node.value.referenceObject && r.sourceData.None? && r.result.error.None?
    ensures r.sourceData.Some? <==> AsyncSucceeds(f, node, translator)
    ensures node.None? ==> r.result.error == Some(AssetNodeNull) && r.result.imported.None?
    ensures node.Some? && !node.value.objectClassIsDemoObject ==>
      r.result.error == Some(NodeClassMismatch) && r.result.imported.None?
    ensures !f.skipImport && !AsyncSucceeds(f, node, translator) ==> r.result.imported.None? && r.result.error.Some?
    ensures AsyncSucceeds(f, node, translator) ==>
      && r.sourceData.value == translator.payloadInterface.value(node.value.payloadKey.value).value.formatJsonData
      && r.result.imported == node.value.referenceObject && r.result.error.None?
  {
    if node.None? then AsyncFailure(f, AssetNodeNull)
    else if !node.value.objectClassIsDemoObject then AsyncFailure(f, NodeClassMismatch)
    else
      var existing := node.value.referenceObject;
      if f.skipImport then AsyncOutcome(ImportResult(existing, true, None), None)
      else if !node.value.isDemoObjectFactoryNode then AsyncFailure(f, WrongObjectType)
      else if node.value.payloadKey.None? then AsyncFailure(f, InvalidPayloadKey)
      else if translator.payloadInterface.None? then AsyncFailure(f, MissingPayloadInterface)
      else
        var payload := translator.payloadInterface.value(node.value.payloadKey.value);
        if payload.None? then AsyncFailure(f, CannotRetrievePayload)
        else if existing.None? then AsyncFailure(f, CannotCreateAsync)
        else if !existing.value.isDemoObject then AsyncFailure(f, FailCreatingAsset)
        else AsyncOutcome(ImportResult(existing, false, None), Some(payload.value.formatJsonData))
  }

  /** With the Foo translator the asset's SourceData becomes the source file's text. */
  lemma FooImportWritesFileText(f: Factory, node: AssetNode, paths: EnginePaths, src: string)
    requires !f.skipImport && node.objectClassIsDemoObject && node.isDemoObjectFactoryNode
    requires node.payloadKey.Some?
    requires node.referenceObject.Some? && node.referenceObject.value.isDemoObject
    ensures ImportAssetAsync(f, Some(node), FooFactoryTranslator(paths, src)).sourceData ==
      Some(paths.loadFile(src).GetOr(""))
  {
    var t := FooFactoryTranslator(paths, src);
    assert t.payloadInterface.value(node.payloadKey.value) == DemoObjectPayloadData(paths, src, node.payloadKey.value);
  }

  // ---------------------------------------------------------------------------
  // SetupObject_GameThread

  /**
   * What the setup does to the imported asset: nothing, apply the factory node's custom
   * attributes (first import), or run the reimport strategy; `updateImportData` is whether
   * the asset's import data is refreshed afterwards (it needs the source data).
   */
  datatype SetupAction =
    | NoSetup
    | ApplyNodeSettings(asset: Asset, settings: Option<AssetSettings>, updateImportData: bool)
    | ApplyReimportStrategy(asset: Asset, updateImportData: bool)

  /**
   * SetupObject. Nothing happens when the factory skips or the imported object is not a
   * DemoObject; otherwise a first import applies the node's settings and a reimport runs
   * the reimport strategy.
   */
  function SetupObject(f: Factory, imported: Option<Asset>, isReimport: bool, factoryNode: Node, hasSourceData: bool): (r: SetupAction)
    ensures r.NoSetup? <==> f.skipImport || imported.None? || !imported.value.isDemoObject
    ensures r.ApplyNodeSettings? <==> !r.NoSetup? && !isReimport
    ensures !r.NoSetup? ==> r.asset == imported.value && r.updateImportData == hasSourceData
    ensures r.ApplyNodeSettings? ==> r.settings == factoryNode.settings
  {
    if f.skipImport then NoSetup
    else if imported.None? || !imported.value.isDemoObject then NoSetup
    else if !isReimport then ApplyNodeSettings(imported.value, factoryNode.settings, hasSourceData)
    else ApplyReimportStrategy(imported.value, hasSourceData)
  }

  // ---------------------------------------------------------------------------
  // The skip flag across phases

  /** One call into the factory, with its arguments. */
  datatype Phase =
    | BeginPhase(node: Option<AssetNode>, reimportObject: Option<Asset>, translator: Translator, newObject: Option<Asset>)
    | AsyncPhase(asyncNode: Option<AssetNode>, asyncTranslator: Translator)
    | SetupPhase(imported: Option<Asset>, isReimport: bool, factoryNode: Node, hasSourceData: bool)

  /** The factory state after one phase: only Begin changes it. */
  function Step(f: Factory, ph: Phase): Factory {
    match ph
    case BeginPhase(n, ro, t, no) => BeginImportAsset(f, n, ro, t, no).factory
    case AsyncPhase(_, _) => f
    case SetupPhase(_, _, _, _) => f
  }

  function Run(f: Factory, phases: seq<Phase>): Factory
    decreases |phases|
  {
    if |phases| == 0 then f else Run(Step(f, phases[0]), phases[1..])
  }

  /** Once raised, the skip flag stays raised through any sequence of phases. */
  lemma {:induction false} SkipImportSticky(f: Factory, phases: seq<Phase>)
    requires f.skipImport
    ensures Run(f, phases).skipImport
    decreases |phases|
  {
    if |phases| > 0 {
      var g := Step(f, phases[0]);
      assert g.skipImport;
      SkipImportSticky(g, phases[1..]);
    }
  }

  /**
   * After a skip, no later async phase writes to the asset and no later setup touches it:
   * an asset the factory skipped is never overwritten.
   */
  lemma SkippedAssetUntouched(f: Factory, phases: seq<Phase>, node: Option<AssetNode>, translator: Translator,
                              imported: Option<Asset>, isReimport: bool, factoryNode: Node, hasSourceData: bool)
    requires f.skipImport
    ensures ImportAssetAsync(Run(f, phases), node, translator).sourceData.None?
    ensures SetupObject(Run(f, phases), imported, isReimport, factoryNode, hasSourceData).NoSetup?
  {
    SkipImportSticky(f, phases);
  }
}
