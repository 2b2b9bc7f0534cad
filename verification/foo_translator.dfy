/**
 * UCustomFooTranslator: advertises the ".foo" format, turns a .foo source file into one
 * translated DemoObject node, and hands the file's text back as the payload.
 *
 * The two global switches (the console variable Interchange.FeatureFlags.Import.Foo and
 * GIsAutomationTesting) are parameters, and so are the engine's path and file primitives.
 */
module FooTranslator {
  import opened Wrappers
  import opened Host
  import opened Interchange

  /** The one format string: extension before the ';', description after it. */
  const FooFormat: string := "foo;FOO my game format"

  /** GetSupportedFormats: the Foo format exactly when import is enabled or tests are running. */
  function SupportedFormats(fooImportEnabled: bool, automationTesting: bool): (r: seq<string>)
    ensures |r| <= 1
    ensures r != [] <==> fooImportEnabled || automationTesting
    ensures forall i :: 0 <= i < |r| ==> r[i] == FooFormat
  {
    if fooImportEnabled || automationTesting then [FooFormat] else []
  }

  /** The node Translate creates for a normalized filename. */
  function TranslatedNode(paths: EnginePaths, filename: string): (n: Node)
    ensures n.uid == filename && n.payloadKey == Some(filename)
    ensures n.displayLabel == paths.baseFilename(filename)
    ensures n.containerType == TranslatedAsset && n.cls == DemoObjectNodeClass
    ensures n.targets == [] && n.settings.None? && n.assetName.None?
  {
    NewNode(filename, paths.baseFilename(filename), TranslatedAsset, DemoObjectNodeClass).(payloadKey := Some(filename))
  }

  datatype TranslateResult = TranslateResult(ok: bool, container: Container)

  /**
   * Translate: fails, leaving the container alone, when the normalized source file does
   * not exist; otherwise adds one DemoObject node whose uid and payload key are the
   * normalized filename and whose label is the file's base name.
   */
  function Translate(paths: EnginePaths, sourceFilename: string, c: Container): (r: TranslateResult)
    ensures r.ok <==> paths.fileExists(paths.normalize(sourceFilename))
    ensures !r.ok ==> r.container == c
    ensures r.ok ==> r.container == AddNode(c, TranslatedNode(paths, paths.normalize(sourceFilename)))
  {
    var filename := paths.normalize(sourceFilename);
    if !paths.fileExists(filename) then TranslateResult(false, c)
    else TranslateResult(true, AddNode(c, TranslatedNode(paths, filename)))
  }

  /** FCustomDemoObjectData: the raw text of the source file. */
  datatype PayloadData = PayloadData(formatJsonData: string)

  /**
   * GetDemoObjectPayloadData: always returns a payload holding the source file's text,
   * or the empty string when loading fails. The payload key is not consulted.
   */
  function DemoObjectPayloadData(paths: EnginePaths, sourceFilename: string, payloadKey: string): (r: Option<PayloadData>)
    ensures r.Some?
    ensures paths.loadFile(sourceFilename).Some? ==> r.value.formatJsonData == paths.loadFile(sourceFilename).value
    ensures paths.loadFile(sourceFilename).None? ==> r.value.formatJsonData == ""
  {
    Some(PayloadData(paths.loadFile(sourceFilename).GetOr("")))
  }

  /** The payload depends on the translator's source file only, never on the key asked for. */
  lemma PayloadIgnoresKey(paths: EnginePaths, sourceFilename: string, k1: string, k2: string)
    ensures DemoObjectPayloadData(paths, sourceFilename, k1) == DemoObjectPayloadData(paths, sourceFilename, k2)
  {
  }

  /**
   * A successful translation leaves exactly one new node, it is the only change, and the
   * uid it carries is the key the payload is later requested with.
   */
  lemma TranslateAddsOneDemoObject(paths: EnginePaths, sourceFilename: string, c: Container)
    requires Translate(paths, sourceFilename, c).ok
    ensures var r := Translate(paths, sourceFilename, c).container;
      && |r.nodes| == |c.nodes| + 1
      && r.nodes[..|c.nodes|] == c.nodes
      && r.nodes[|c.nodes|].cls == DemoObjectNodeClass
      && r.nodes[|c.nodes|].payloadKey == Some(r.nodes[|c.nodes|].uid)
      && IsNodeUidValid(r, paths.normalize(sourceFilename))
  {
    var r := Translate(paths, sourceFilename, c).container;
    assert r.nodes[|c.nodes|].uid == paths.normalize(sourceFilename);
  }
}
