/**
 * UCustomDemoObjectPipeline: collects the translated DemoObject nodes of a container,
 * creates (or reuses) one DemoObject factory node per translated node, links the two
 * both ways, and, for a standalone import of a single object, renames the factory node.
 *
 * The pipeline is modelled fresh for each call: its member arrays start empty. The
 * engine's BuildFactoryNodeUid is a parameter.
 */
module DemoObjectPipeline {
  import opened Wrappers
  import opened Interchange
  import opened KeySort

  /** The user-facing pipeline properties the step reads. */
  datatype Pipeline = Pipeline(
    importDemoObjects: bool,
    standalone: bool,          // IsStandAlonePipeline()
    destinationName: string,
    assetName: string,
    settings: AssetSettings)

  /** A node the iteration picks up: a translated asset that casts to a DemoObject node. */
  predicate IsCollectible(n: Node) {
    n.containerType == TranslatedAsset && n.cls == DemoObjectNodeClass
  }

  /** Positions of the collectible nodes, in iteration order. */
  function CollectDemoObjectNodes(nodes: seq<Node>): (r: seq<int>)
    ensures forall i :: 0 <= i < |r| ==> 0 <= r[i] < |nodes| && IsCollectible(nodes[r[i]])
    ensures forall k :: 0 <= k < |nodes| && IsCollectible(nodes[k]) ==> k in r
    ensures StrictlyIncreasing(r)
    decreases |nodes|
  {
    if |nodes| == 0 then []
    else
      var prefix := nodes[..|nodes| - 1];
      var rest := CollectDemoObjectNodes(prefix);
      assert forall k :: 0 <= k < |prefix| ==> prefix[k] == nodes[k];
      if IsCollectible(nodes[|nodes| - 1]) then rest + [|nodes| - 1] else rest
  }

  // ---------------------------------------------------------------------------
  // One factory node

  /** The factory node built for a translated node: payload and the four settings copied. */
  function FactoryNodeFor(p: Pipeline, uid: string, src: Node, payloadKey: string): (n: Node)
    ensures n.uid == uid && n.displayLabel == src.displayLabel
    ensures n.containerType == FactoryData && n.cls == DemoObjectFactoryNodeClass
    ensures n.payloadKey == Some(payloadKey) && n.settings == Some(p.settings)
    ensures n.targets == [] && n.assetName.None?
  {
    NewNode(uid, src.displayLabel, FactoryData, DemoObjectFactoryNodeClass).(payloadKey := Some(payloadKey), settings := Some(p.settings))
  }

  /** The factory node returned (its position), and the container afterwards. */
  datatype CreateResult = CreateResult(factory: Option<nat>, container: Container)

  /** Node `b` is node `a` with at most some targets appended. */
  predicate Keeps(a: Node, b: Node) {
    && b == a.(targets := b.targets)
    && |a.targets| <= |b.targets| && b.targets[..|a.targets|] == a.targets
  }

  /** `r` holds every node of `c` at the same position, each keeping all but appended targets. */
  predicate Extends(c: Container, r: Container) {
    && |c.nodes| <= |r.nodes|
    && forall i :: 0 <= i < |c.nodes| ==> Keeps(c.nodes[i], r.nodes[i])
  }

  /** Every node `r` has beyond `c` is a DemoObject factory node. */
  predicate AddsOnlyFactories(c: Container, r: Container) {
    forall i :: |c.nodes| <= i < |r.nodes| ==>
      r.nodes[i].cls == DemoObjectFactoryNodeClass && r.nodes[i].containerType == FactoryData
  }

  /**
   * CreateDemoObjectFactoryNode for the node at `source`:
   * - a node already carries the factory uid: it is returned when it is a DemoObject
   *   factory node and null otherwise; the container is untouched;
   * - the translated node has no payload key: null, and nothing is added;
   * - otherwise a new factory node is added at the end, targeting the translated node,
   *   and the translated node gets the factory uid as a target.
   */
  function CreateFactoryNode(p: Pipeline, buildUid: string -> string, c: Container, source: nat): (r: CreateResult)
    requires source < |c.nodes|
    ensures Extends(c, r.container) && AddsOnlyFactories(c, r.container)
    ensures IsNodeUidValid(c, buildUid(c.nodes[source].uid)) ==> r.container == c
    ensures r.factory.Some? ==>
      && r.factory.value < |r.container.nodes|
      && r.container.nodes[r.factory.value].uid == buildUid(c.nodes[source].uid)
      && r.container.nodes[r.factory.value].cls == DemoObjectFactoryNodeClass
    ensures r.factory.None? ==> r.container == c
    ensures var found := FindUid(c.nodes, buildUid(c.nodes[source].uid));
      found.Some? ==>
        && (c.nodes[found.value].cls == DemoObjectFactoryNodeClass ==> r.factory == found)
        && (c.nodes[found.value].cls != DemoObjectFactoryNodeClass ==> r.factory.None?)
    ensures FindUid(c.nodes, buildUid(c.nodes[source].uid)).None? ==>
      (r.factory.Some? <==> c.nodes[source].payloadKey.Some?) && (r.factory.Some? ==> r.factory.value == |c.nodes|)
    ensures (IsNodeUidValid(c, buildUid(c.nodes[source].uid)) || c.nodes[source].payloadKey.Some?) <==>
      IsNodeUidValid(r.container, buildUid(c.nodes[source].uid))
  {
    var src := c.nodes[source];
    var uid := buildUid(src.uid);
    match FindUid(c.nodes, uid)
    case Some(k) =>
      if c.nodes[k].cls == DemoObjectFactoryNodeClass then CreateResult(Some(k), c)
      else CreateResult(None, c)
    case None =>
      if src.payloadKey.None? then CreateResult(None, c)
      else
        var n := |c.nodes|;
        var c1 := AddNode(c, FactoryNodeFor(p, uid, src, src.payloadKey.value));
        var c2 := AddTarget(c1, n, src.uid);
        var c3 := AddTarget(c2, source, uid);
        assert c3.nodes[n].uid == uid;
        assert forall i :: 0 <= i < n ==> c3.nodes[i] == c.nodes[i] || (i == source && c3.nodes[i] == src.(targets := src.targets + [uid]));
        assert c3.nodes[source].targets[..|src.targets|] == src.targets;
        CreateResult(Some(n), c3)
  }

  /**
   * A newly created factory node and its translated node point at each other: the
   * factory node targets exactly the translated node, carries its payload key and the
   * pipeline's settings, and the translated node's last target is the factory node.
   */
  lemma CreateFactoryNodeLinks(p: Pipeline, buildUid: string -> string, c: Container, source: nat)
    requires source < |c.nodes|
    requires !IsNodeUidValid(c, buildUid(c.nodes[source].uid))
    requires c.nodes[source].payloadKey.Some?
    ensures var r := CreateFactoryNode(p, buildUid, c, source);
      && r.factory == Some(|c.nodes|)
      && r.container.nodes[|c.nodes|].targets == [c.nodes[source].uid]
      && r.container.nodes[|c.nodes|].payloadKey == c.nodes[source].payloadKey
      && r.container.nodes[|c.nodes|].settings == Some(p.settings)
      && r.container.nodes[source].targets == c.nodes[source].targets + [buildUid(c.nodes[source].uid)]
  {
    assert FindUid(c.nodes, buildUid(c.nodes[source].uid)).None?;
  }

  /** Creating the factory node a second time finds the first one and changes nothing. */
  lemma CreateFactoryNodeIdempotent(p: Pipeline, buildUid: string -> string, c: Container, source: nat)
    requires source < |c.nodes|
    ensures var r1 := CreateFactoryNode(p, buildUid, c, source);
      var r2 := CreateFactoryNode(p, buildUid, r1.container, source);
      r2 == r1
  {
    var src := c.nodes[source];
    var uid := buildUid(src.uid);
    var r1 := CreateFactoryNode(p, buildUid, c, source);
    assert r1.container.nodes[source].uid == src.uid;
    if FindUid(c.nodes, uid).None? && src.payloadKey.Some? {
      var n := |c.nodes|;
      var f := FindUid(r1.container.nodes, uid);
      assert r1.container.nodes[n].uid == uid;
      assert f.Some? && f.value <= n;
      assert forall j :: 0 <= j < n ==> r1.container.nodes[j].uid == c.nodes[j].uid;
      assert f == Some(n);
    }
  }

  // ---------------------------------------------------------------------------
  // The pipeline step

  lemma ExtendsTransitive(a: Container, b: Container, c: Container)
    requires Extends(a, b) && Extends(b, c)
    ensures Extends(a, c)
  {
    forall i | 0 <= i < |a.nodes| ensures Keeps(a.nodes[i], c.nodes[i]) {
      var x, y, z := a.nodes[i], b.nodes[i], c.nodes[i];
      assert z.targets[..|y.targets|][..|x.targets|] == z.targets[..|x.targets|];
    }
  }

  /** A uid present stays present when the container is extended. */
  lemma ExtendsKeepsUids(a: Container, b: Container, uid: string)
    requires Extends(a, b) && IsNodeUidValid(a, uid)
    ensures IsNodeUidValid(b, uid)
  {
    var i :| 0 <= i < |a.nodes| && a.nodes[i].uid == uid;
    assert b.nodes[i].uid == uid;
  }

  /** The translated node at `s` has a factory uid present, or could get one. */
  predicate HasFactoryUid(buildUid: string -> string, c: Container, r: Container, s: int)
    requires 0 <= s < |c.nodes|
  {
    (IsNodeUidValid(c, buildUid(c.nodes[s].uid)) || c.nodes[s].payloadKey.Some?) ==>
      IsNodeUidValid(r, buildUid(c.nodes[s].uid))
  }

  /**
   * One turn of the creation loop composed with the rest: a container `r1` one creation
   * beyond `c`, then `rest` beyond `r1` for the remaining sources.
   */
  lemma CreateAllTurn(buildUid: string -> string, c: Container, sources: seq<int>, r1: Container, rest: Container)
    requires |sources| > 0
    requires forall i :: 0 <= i < |sources| ==> 0 <= sources[i] < |c.nodes|
    requires Extends(c, r1) && AddsOnlyFactories(c, r1) && HasFactoryUid(buildUid, c, r1, sources[0])
    requires Extends(r1, rest) && AddsOnlyFactories(r1, rest)
    requires forall i :: 0 <= i < |sources[1..]| ==> HasFactoryUid(buildUid, r1, rest, sources[1..][i])
    ensures Extends(c, rest) && AddsOnlyFactories(c, rest)
    ensures forall i :: 0 <= i < |sources| ==> HasFactoryUid(buildUid, c, rest, sources[i])
  {
    ExtendsTransitive(c, r1, rest);
    forall i | 0 <= i < |sources| ensures HasFactoryUid(buildUid, c, rest, sources[i]) {
      var s := sources[i];
      var u := buildUid(c.nodes[s].uid);
      assert r1.nodes[s].uid == c.nodes[s].uid;
      assert r1.nodes[s].payloadKey == c.nodes[s].payloadKey;
      if IsNodeUidValid(c, u) {
        ExtendsKeepsUids(c, r1, u);
      }
      if i == 0 {
        if IsNodeUidValid(r1, u) {
          ExtendsKeepsUids(r1, rest, u);
        }
      } else {
        assert sources[i] == sources[1..][i - 1];
      }
    }
    forall i | |c.nodes| <= i < |rest.nodes|
      ensures rest.nodes[i].cls == DemoObjectFactoryNodeClass && rest.nodes[i].containerType == FactoryData
    {
      if i < |r1.nodes| {
        assert Keeps(r1.nodes[i], rest.nodes[i]);
      }
    }
  }

  /**
   * The factory-creation loop: one call per collected node, in order; the result kept is
   * the one of the last call (null before any).
   */
  function CreateAll(p: Pipeline, buildUid: string -> string, c: Container, sources: seq<int>, last: Option<nat>): (r: CreateResult)
    requires forall i :: 0 <= i < |sources| ==> 0 <= sources[i] < |c.nodes|
    requires last.Some? ==> last.value < |c.nodes|
    ensures Extends(c, r.container) && AddsOnlyFactories(c, r.container)
    ensures forall i :: 0 <= i < |sources| ==> HasFactoryUid(buildUid, c, r.container, sources[i])
    ensures |sources| == 0 ==> r == CreateResult(last, c)
    ensures r.factory.Some? ==> r.factory.value < |r.container.nodes|
    decreases |sources|
  {
    if |sources| == 0 then CreateResult(last, c)
    else
      var r1 := CreateFactoryNode(p, buildUid, c, sources[0]);
      var rest := CreateAll(p, buildUid, r1.container, sources[1..], r1.factory);
      CreateAllTurn(buildUid, c, sources, r1.container, rest.container);
      rest
  }

  /** One turn of the loop: the first creation, then the rest from its outcome. */
  method CreateStep(p: Pipeline, buildUid: string -> string, c: Container, sources: seq<int>, last: Option<nat>)
    returns (c': Container, sources': seq<int>, last': Option<nat>)
    requires forall i :: 0 <= i < |sources| ==> 0 <= sources[i] < |c.nodes|
    requires last.Some? ==> last.value < |c.nodes|
    requires |sources| > 0
    ensures |sources'| == |sources| - 1
    ensures forall i :: 0 <= i < |sources'| ==> 0 <= sources'[i] < |c'.nodes|
    ensures last'.Some? ==> last'.value < |c'.nodes|
    ensures CreateAll(p, buildUid, c, sources, last) == CreateAll(p, buildUid, c', sources', last')
  {
    var r1 := CreateFactoryNode(p, buildUid, c, sources[0]);
    c', sources', last' := r1.container, sources[1..], r1.factory;
  }

  /**
   * The name a standalone import gives its single asset: the destination name when set,
   * otherwise the pipeline's asset name; never anything outside a standalone import.
   */
  function OverrideAssetName(p: Pipeline): (r: string)
    ensures !p.standalone ==> r == ""
    ensures p.standalone && p.destinationName != "" ==> r == p.destinationName
    ensures p.standalone && p.destinationName == "" ==> r == p.assetName
  {
    var name := if p.standalone then p.destinationName else "";
    if name == "" && p.standalone then p.assetName else name
  }

  /** SetAssetName and SetDisplayLabel on the factory node at `k`. */
  function Rename(c: Container, k: nat, name: string): (r: Container)
    requires k < |c.nodes|
    ensures |r.nodes| == |c.nodes|
    ensures r.nodes[k].assetName == Some(name) && r.nodes[k].displayLabel == name
    ensures forall i :: 0 <= i < |c.nodes| && i != k ==> r.nodes[i] == c.nodes[i]
  {
    Container(c.nodes[k := c.nodes[k].(assetName := Some(name), displayLabel := name)])
  }

  datatype PipelineResult = PipelineResult(container: Option<Container>, renamed: Option<nat>)

  /** What the pipeline's step is meant to leave behind for a container `c`. */
  predicate PipelineOutcome(p: Pipeline, buildUid: string -> string, c: Container, r: Container, renamed: Option<nat>) {
    && |c.nodes| <= |r.nodes|
    && (forall i :: 0 <= i < |c.nodes| ==>
          && r.nodes[i].uid == c.nodes[i].uid && r.nodes[i].cls == c.nodes[i].cls
          && r.nodes[i].containerType == c.nodes[i].containerType
          && r.nodes[i].payloadKey == c.nodes[i].payloadKey)
    && (forall i :: |c.nodes| <= i < |r.nodes| ==> r.nodes[i].cls == DemoObjectFactoryNodeClass)
    && (forall s :: 0 <= s < |c.nodes| && IsCollectible(c.nodes[s]) && c.nodes[s].payloadKey.Some? ==>
          IsNodeUidValid(r, buildUid(c.nodes[s].uid)))
    && (renamed.Some? ==>
          && renamed.value < |r.nodes|
          && r.nodes[renamed.value].assetName == Some(OverrideAssetName(p))
          && r.nodes[renamed.value].displayLabel == OverrideAssetName(p))
  }

  /** The factory creations over all collected nodes of `c`, starting from null. */
  function CreateForCollected(p: Pipeline, buildUid: string -> string, c: Container): CreateResult {
    CreateAll(p, buildUid, c, CollectDemoObjectNodes(c.nodes), None)
  }

  /** The step's outcome without a rename. */
  lemma OutcomePlain(p: Pipeline, buildUid: string -> string, c: Container)
    ensures PipelineOutcome(p, buildUid, c, CreateForCollected(p, buildUid, c).container, None)
  {
    var nodes := CollectDemoObjectNodes(c.nodes);
    var cur := CreateForCollected(p, buildUid, c).container;
    forall s | 0 <= s < |c.nodes| && IsCollectible(c.nodes[s]) && c.nodes[s].payloadKey.Some?
      ensures IsNodeUidValid(cur, buildUid(c.nodes[s].uid))
    {
      var j :| 0 <= j < |nodes| && nodes[j] == s;
      assert HasFactoryUid(buildUid, c, cur, nodes[j]);
    }
    forall k | 0 <= k < |c.nodes|
      ensures cur.nodes[k].cls == c.nodes[k].cls && cur.nodes[k].uid == c.nodes[k].uid
      ensures cur.nodes[k].containerType == c.nodes[k].containerType
      ensures cur.nodes[k].payloadKey == c.nodes[k].payloadKey
    {
      assert Keeps(c.nodes[k], cur.nodes[k]);
    }
  }

  /** Renaming one node of an outcome keeps it an outcome, now with that node renamed. */
  lemma RenameKeepsOutcome(p: Pipeline, buildUid: string -> string, c: Container, cur: Container, k: nat)
    requires PipelineOutcome(p, buildUid, c, cur, None)
    requires k < |cur.nodes|
    ensures PipelineOutcome(p, buildUid, c, Rename(cur, k, OverrideAssetName(p)), Some(k))
  {
    var renamed := Rename(cur, k, OverrideAssetName(p));
    forall s | 0 <= s < |c.nodes| && IsCollectible(c.nodes[s]) && c.nodes[s].payloadKey.Some?
      ensures IsNodeUidValid(renamed, buildUid(c.nodes[s].uid))
    {
      var u := buildUid(c.nodes[s].uid);
      var j :| 0 <= j < |cur.nodes| && cur.nodes[j].uid == u;
      assert renamed.nodes[j].uid == u;
    }
  }

  /** The step's outcome when the last factory node is renamed. */
  lemma OutcomeRenamed(p: Pipeline, buildUid: string -> string, c: Container)
    requires CreateForCollected(p, buildUid, c).factory.Some?
    ensures var all := CreateForCollected(p, buildUid, c);
      PipelineOutcome(p, buildUid, c, Rename(all.container, all.factory.value, OverrideAssetName(p)), all.factory)
  {
    var all := CreateForCollected(p, buildUid, c);
    OutcomePlain(p, buildUid, c);
    RenameKeepsOutcome(p, buildUid, c, all.container, all.factory.value);
  }

  /**
   * The creation loop as the pipeline runs it: one CreateDemoObjectFactoryNode per
   * collected node, each on the container the previous one left, keeping the last result.
   */
  method CreateLoop(p: Pipeline, buildUid: string -> string, c: Container, nodes: seq<int>) returns (r: CreateResult)
    requires forall i :: 0 <= i < |nodes| ==> 0 <= nodes[i] < |c.nodes|
    ensures r == CreateAll(p, buildUid, c, nodes, None)
    ensures Extends(c, r.container)
  {
    var cur := c;
    var last: Option<nat> := None;
    var todo := nodes;
    while |todo| > 0
      invariant forall j :: 0 <= j < |todo| ==> 0 <= todo[j] < |cur.nodes|
      invariant last.Some? ==> last.value < |cur.nodes|
      invariant CreateAll(p, buildUid, c, nodes, None) == CreateAll(p, buildUid, cur, todo, last)
    {
      cur, todo, last := CreateStep(p, buildUid, cur, todo, last);
    }
    r := CreateResult(last, cur);
  }

  /**
   * ExecutePipeline. A null container is left null. Without bImportDemoObjects the
   * container is untouched. Otherwise every collected node is given a factory node, the
   * nodes already present keep their identity, and the last factory node returned is
   * renamed exactly when the import is standalone, exactly one node was collected and
   * the override name is not empty.
   */
  method ExecutePipeline(p: Pipeline, container: Option<Container>, buildUid: string -> string) returns (r: PipelineResult)
    ensures container.None? <==> r.container.None?
    ensures container.Some? && !p.importDemoObjects ==> r.container == container && r.renamed.None?
    ensures container.Some? && p.importDemoObjects ==>
      PipelineOutcome(p, buildUid, container.value, r.container.value, r.renamed)
    ensures r.renamed.Some? <==>
      && container.Some? && p.importDemoObjects && p.standalone && OverrideAssetName(p) != ""
      && |CollectDemoObjectNodes(container.value.nodes)| == 1
      && CreateForCollected(p, buildUid, container.value).factory.Some?
    ensures container.Some? && p.importDemoObjects ==>
      var all := CreateForCollected(p, buildUid, container.value);
      && (r.renamed.Some? ==>
            r.renamed == all.factory && r.container == Some(Rename(all.container, all.factory.value, OverrideAssetName(p))))
      && (r.renamed.None? ==> r.container == Some(all.container))
  {
    if container.None? {
      return PipelineResult(None, None);
    }
    var c := container.value;
    var nodes := CollectDemoObjectNodes(c.nodes);
    if !p.importDemoObjects {
      return PipelineResult(container, None);
    }
    var all := CreateLoop(p, buildUid, c, nodes);
    var cur, last := all.container, all.factory;
    var name := OverrideAssetName(p);
    var overrideName := |nodes| == 1 && p.standalone && name != "";
    if last.Some? && overrideName {
      OutcomeRenamed(p, buildUid, c);
      r := PipelineResult(Some(Rename(cur, last.value, name)), Some(last.value));
    } else {
      OutcomePlain(p, buildUid, c);
      r := PipelineResult(Some(cur), None);
    }
  }
}
