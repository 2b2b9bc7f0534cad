/**
 * The custom static-mesh pipeline's pre-import step: scene nodes labelled
 * `Edge###_V0` / `Edge###_V1` are paired by edge number, the complete pairs are numbered
 * 0, 1, 2, ... in ascending edge order, and each pair's two global transforms are recorded
 * on the single static-mesh factory node under `EdgeIndex_<n>_V0` / `EdgeIndex_<n>_V1`,
 * followed by a `WedgeCount` attribute when at least one wedge was recorded.
 *
 * FCString::Atoi is a parameter (`atoi`); a node's global transform is an engine
 * computation given as `globalTransform` (None when the engine cannot produce it).
 */
module StaticMeshPipeline {
  import opened Wrappers
  import opened Text
  import opened KeySort

  /** Stands for an engine FTransform: the pipeline copies transforms and never looks inside. */
  datatype Transform = Transform(token: int)

  /** A scene node: its label and the global transform the engine computes for it, if any. */
  datatype SceneNode = SceneNode(uid: string, displayLabel: string, globalTransform: Option<Transform>)

  /** The edge number a label designates and whether it names the V0 (start) slot. */
  datatype EdgeSlot = EdgeSlot(index: int, isV0: bool)

  /** The nodes seen so far for one edge number; None stands for the null pointer. */
  datatype Wedge = Wedge(v0: Option<SceneNode>, v1: Option<SceneNode>)

  /** A wedge that reaches the output: its edge number and both transforms. */
  datatype WedgeRecord = WedgeRecord(edge: int, v0: Transform, v1: Transform)

  datatype Attribute = TransformAttribute(transform: Transform) | Int32Attribute(value: int)

  /** One attribute registration on the static-mesh factory node. */
  datatype Write = Write(key: string, value: Attribute)

  /**
   * What ExecutePipeline reads from the node container: the uids of the static-mesh
   * factory nodes and the scene nodes in the container's iteration order.
   */
  datatype MeshContainer = MeshContainer(staticMeshFactoryNodes: seq<string>, sceneNodes: seq<SceneNode>)

  const WedgeCountKey: string := "WedgeCount"

  // ---------------------------------------------------------------------------
  // Label classification

  /** Length 10, starts with "Edge" and the first "_V" sits at index 7, all ignoring case. */
  predicate IsEdgeLabel(lbl: string) {
    |lbl| == 10 && StartsWithIgnoreCase(lbl, "Edge") && FindIgnoreCase(lbl, "_V") == 7
  }

  /** The slot a scene-node label fills, or None when the label is not an edge label. */
  function ClassifyLabel(atoi: string -> int, lbl: string): (r: Option<EdgeSlot>)
    ensures r.Some? <==> IsEdgeLabel(lbl)
    ensures r.Some? ==> r.value.index == atoi(lbl[4..7])
    ensures r.Some? ==> (r.value.isV0 <==> lbl[9] == '0')
  {
    if IsEdgeLabel(lbl) then
      assert LowerChar(lbl[9]) == '0' <==> lbl[9] == '0';
      assert Lower(lbl[9..]) == [LowerChar(lbl[9])];
      Some(EdgeSlot(atoi(lbl[4..7]), EndsWithIgnoreCase(lbl, "0")))
    else None
  }

  /** "_v" ignoring case at position j: an underscore followed by 'v' or 'V'. */
  predicate UnderscoreVAt(lbl: string, j: nat)
    requires j + 2 <= |lbl|
  {
    lbl[j] == '_' && LowerChar(lbl[j + 1]) == 'v'
  }

  lemma MatchesUnderscoreV(lbl: string, j: nat)
    requires j + 2 <= |lbl|
    ensures MatchesAt(lbl, "_V", j) <==> UnderscoreVAt(lbl, j)
  {
    var w := lbl[j..j + 2];
    assert Lower(w) == [LowerChar(lbl[j]), LowerChar(lbl[j + 1])];
    assert Lower("_V") == ['_', 'v'];
  }

  /**
   * The edge-label rule in terms of characters: ten characters, "edge" in any case,
   * "_v" in any case at positions 7-8, and no earlier "_v" at positions 4, 5 or 6.
   */
  lemma {:induction false} EdgeLabelShape(lbl: string)
    ensures IsEdgeLabel(lbl) <==>
      && |lbl| == 10
      && EqualsIgnoreCase(lbl[..4], "edge")
      && UnderscoreVAt(lbl, 7)
      && !UnderscoreVAt(lbl, 4) && !UnderscoreVAt(lbl, 5) && !UnderscoreVAt(lbl, 6)
  {
    assert Lower("edge") == Lower("Edge");
    if |lbl| == 10 {
      forall j | 0 <= j <= 8 ensures MatchesAt(lbl, "_V", j) <==> UnderscoreVAt(lbl, j) {
        MatchesUnderscoreV(lbl, j);
      }
      var f := FindIgnoreCase(lbl, "_V");
      if EqualsIgnoreCase(lbl[..4], "edge") {
        // positions 0..3 spell "edge", so no "_v" starts there
        forall j | 0 <= j <= 3 ensures !UnderscoreVAt(lbl, j) {
          assert Lower(lbl[..4])[j] == LowerChar(lbl[j]);
          assert Lower("edge")[j] != '_';
        }
        if UnderscoreVAt(lbl, 7) && !UnderscoreVAt(lbl, 4) && !UnderscoreVAt(lbl, 5) && !UnderscoreVAt(lbl, 6) {
          assert MatchesAt(lbl, "_V", 7);
          assert f != -1 && f <= 7;
          assert f == 7;
        }
      }
    }
  }

  lemma ClassifyExampleV0(atoi: string -> int)
    ensures ClassifyLabel(atoi, "Edge001_V0") == Some(EdgeSlot(atoi("001"), true))
  {
    EdgeLabelShape("Edge001_V0");
    assert "Edge001_V0"[..4] == "Edge";
    assert "Edge001_V0"[4..7] == "001";
  }

  /** Case is ignored throughout: a lower-case label names the V1 slot of edge "012". */
  lemma ClassifyExampleLowerCase(atoi: string -> int)
    ensures ClassifyLabel(atoi, "edge012_v1") == Some(EdgeSlot(atoi("012"), false))
  {
    EdgeLabelShape("edge012_v1");
    assert "edge012_v1"[..4] == "edge";
    assert "edge012_v1"[4..7] == "012";
  }

  /**
   * Every label "Edge" + three characters + "_V" + one character is an edge label when the
   * three characters hold no underscore. Nothing checks that they are digits: they go to
   * Atoi as they are. The slot is V0 exactly when the last character is '0'; any other,
   * a letter included, selects V1.
   */
  lemma ClassifyEdgeLabel(atoi: string -> int, number: string, last: char)
    requires |number| == 3 && forall i :: 0 <= i < 3 ==> number[i] != '_'
    ensures ClassifyLabel(atoi, "Edge" + number + "_V" + [last]) == Some(EdgeSlot(atoi(number), last == '0'))
  {
    var lbl := "Edge" + number + "_V" + [last];
    EdgeLabelShape(lbl);
    assert lbl[..4] == "Edge" && lbl[4..7] == number;
    assert lbl[4] == number[0] && lbl[5] == number[1] && lbl[6] == number[2];
    assert lbl[7] == '_' && lbl[8] == 'V' && lbl[9] == last;
    assert Lower("Edge") == Lower("edge");
  }

  /** An earlier "_V" moves the first match away from index 7, so the label is ignored. */
  lemma ClassifyExampleEarlySeparator(atoi: string -> int)
    ensures ClassifyLabel(atoi, "Edge_V1_V0") == None
  {
    EdgeLabelShape("Edge_V1_V0");
    assert UnderscoreVAt("Edge_V1_V0", 4);
  }

  // ---------------------------------------------------------------------------
  // Pairing by edge number

  function SlotOf(w: Wedge, isV0: bool): Option<SceneNode> {
    if isV0 then w.v0 else w.v1
  }

  /**
   * The TMap<int32, pair> the walk fills: its keys in insertion order and the entry for
   * each key.
   */
  datatype WedgeMap = WedgeMap(order: seq<int>, slots: map<int, Wedge>)

  /** Every key listed once, and exactly the keys that have an entry. */
  ghost predicate ValidWedgeMap(w: WedgeMap) {
    Distinct(w.order) && forall i :: i in w.order <==> i in w.slots
  }

  /**
   * FindOrAdd on the edge number (a new entry starts with both slots null), then the
   * node is stored in its slot, replacing whatever was there. The other slot and every
   * other entry are unchanged.
   */
  function RecordNode(w: WedgeMap, e: EdgeSlot, n: SceneNode): (r: WedgeMap)
    requires ValidWedgeMap(w)
    ensures ValidWedgeMap(r)
    ensures r.slots.Keys == w.slots.Keys + {e.index}
    ensures SlotOf(r.slots[e.index], e.isV0) == Some(n)
    ensures SlotOf(r.slots[e.index], !e.isV0) == (if e.index in w.slots then SlotOf(w.slots[e.index], !e.isV0) else None)
    ensures forall i :: i in w.slots && i != e.index ==> r.slots[i] == w.slots[i]
  {
    var isNew := e.index !in w.slots;
    var prev := if isNew then Wedge(None, None) else w.slots[e.index];
    var filled := if e.isV0 then prev.(v0 := Some(n)) else prev.(v1 := Some(n));
    WedgeMap(if isNew then w.order + [e.index] else w.order, w.slots[e.index := filled])
  }

  /** The wedge map after visiting `nodes` in order. */
  function CollectWedges(atoi: string -> int, nodes: seq<SceneNode>): (r: WedgeMap)
    ensures ValidWedgeMap(r)
    decreases |nodes|
  {
    if |nodes| == 0 then WedgeMap([], map[])
    else
      var m := CollectWedges(atoi, nodes[..|nodes| - 1]);
      var n := nodes[|nodes| - 1];
      match ClassifyLabel(atoi, n.displayLabel)
      case None => m
      case Some(e) => RecordNode(m, e, n)
  }

  /** Node j of `nodes` is classified into slot `e`. */
  predicate Hits(atoi: string -> int, nodes: seq<SceneNode>, j: int, e: EdgeSlot) {
    0 <= j < |nodes| && ClassifyLabel(atoi, nodes[j].displayLabel) == Some(e)
  }

  /** Node j is the last one in `nodes` classified into slot `e`. */
  predicate LastHit(atoi: string -> int, nodes: seq<SceneNode>, j: int, e: EdgeSlot) {
    Hits(atoi, nodes, j, e) && forall k :: j < k < |nodes| ==> !Hits(atoi, nodes, k, e)
  }

  /** The other slot of the same edge number. */
  function Other(e: EdgeSlot): EdgeSlot {
    EdgeSlot(e.index, !e.isV0)
  }

  /** Reference definition: the position of the last node whose label names slot `e`. */
  function LastHitIndex(atoi: string -> int, nodes: seq<SceneNode>, e: EdgeSlot): (r: Option<nat>)
    ensures r.Some? ==> LastHit(atoi, nodes, r.value, e)
    ensures r.None? ==> forall j :: !Hits(atoi, nodes, j, e)
    decreases |nodes|
  {
    if |nodes| == 0 then None
    else if ClassifyLabel(atoi, nodes[|nodes| - 1].displayLabel) == Some(e) then Some(|nodes| - 1)
    else
      var prefix := nodes[..|nodes| - 1];
      var r := LastHitIndex(atoi, prefix, e);
      assert forall j :: 0 <= j < |nodes| - 1 ==> (Hits(atoi, nodes, j, e) <==> Hits(atoi, prefix, j, e));
      r
  }

  /** The node a slot should hold after the walk: the last one naming it, if any. */
  function ExpectedSlot(atoi: string -> int, nodes: seq<SceneNode>, e: EdgeSlot): Option<SceneNode> {
    match LastHitIndex(atoi, nodes, e)
    case None => None
    case Some(j) => Some(nodes[j])
  }

  /** Edge number i has an entry exactly when some label names one of its two slots. */
  lemma {:induction false} CollectWedgesEntries(atoi: string -> int, nodes: seq<SceneNode>, e: EdgeSlot)
    ensures e.index in CollectWedges(atoi, nodes).slots <==>
      LastHitIndex(atoi, nodes, e).Some? || LastHitIndex(atoi, nodes, Other(e)).Some?
    decreases |nodes|
  {
    if |nodes| > 0 {
      var prefix := nodes[..|nodes| - 1];
      CollectWedgesEntries(atoi, prefix, e);
      match ClassifyLabel(atoi, nodes[|nodes| - 1].displayLabel)
      case None =>
      case Some(c) =>
        assert c.index == e.index ==> c == e || c == Other(e);
    }
  }

  /**
   * Last writer wins: each slot of an edge number that has an entry holds the last node
   * naming it, and null when none does.
   */
  lemma {:induction false} CollectWedgesLastWriter(atoi: string -> int, nodes: seq<SceneNode>, e: EdgeSlot)
    ensures e.index in CollectWedges(atoi, nodes).slots ==>
      SlotOf(CollectWedges(atoi, nodes).slots[e.index], e.isV0) == ExpectedSlot(atoi, nodes, e)
    decreases |nodes|
  {
    if |nodes| > 0 {
      var prefix := nodes[..|nodes| - 1];
      var n := nodes[|nodes| - 1];
      var m := CollectWedges(atoi, prefix);
      CollectWedgesLastWriter(atoi, prefix, e);
      match ClassifyLabel(atoi, n.displayLabel)
      case None =>
        assert ExpectedSlot(atoi, nodes, e) == ExpectedSlot(atoi, prefix, e);
      case Some(c) =>
        if c == e {
          assert CollectWedges(atoi, nodes) == RecordNode(m, e, n);
        } else {
          assert ExpectedSlot(atoi, nodes, e) == ExpectedSlot(atoi, prefix, e);
          if c == Other(e) {
            CollectWedgesEntries(atoi, prefix, e);
            assert CollectWedges(atoi, nodes) == RecordNode(m, Other(e), n);
          } else {
            assert c.index != e.index;
          }
        }
    }
  }

  // ---------------------------------------------------------------------------
  // Ascending walk over the wedge map

  /**
   * Both slots filled and both global transforms available: the two transforms.
   * Otherwise the wedge is skipped.
   */
  function Complete(w: Wedge): Option<(Transform, Transform)> {
    if w.v0.None? || w.v1.None? then None
    else if w.v0.value.globalTransform.None? then None
    else if w.v1.value.globalTransform.None? then None
    else Some((w.v0.value.globalTransform.value, w.v1.value.globalTransform.value))
  }

  /** The wedges that survive, visiting edge numbers in the order of `keys`. */
  function Survivors(m: map<int, Wedge>, keys: seq<int>): seq<WedgeRecord>
    requires forall i :: 0 <= i < |keys| ==> keys[i] in m
    decreases |keys|
  {
    if |keys| == 0 then []
    else
      var rest := Survivors(m, keys[1..]);
      match Complete(m[keys[0]])
      case None => rest
      case Some(p) => [WedgeRecord(keys[0], p.0, p.1)] + rest
  }

  /** A record survives exactly when its edge is visited and its wedge is complete with its transforms. */
  lemma {:induction false} SurvivorsMembers(m: map<int, Wedge>, keys: seq<int>, x: WedgeRecord)
    requires forall i :: 0 <= i < |keys| ==> keys[i] in m
    ensures x in Survivors(m, keys) <==> x.edge in keys && Complete(m[x.edge]) == Some((x.v0, x.v1))
    decreases |keys|
  {
    if |keys| > 0 {
      var tail := keys[1..];
      assert forall i :: 0 <= i < |tail| ==> tail[i] == keys[i + 1];
      SurvivorsMembers(m, tail, x);
      assert x.edge in keys <==> x.edge == keys[0] || x.edge in tail;
    }
  }

  /** Visiting the keys in ascending order gives the survivors in ascending edge order. */
  lemma {:induction false} SurvivorsAscending(m: map<int, Wedge>, keys: seq<int>)
    requires forall i :: 0 <= i < |keys| ==> keys[i] in m
    requires StrictlyIncreasing(keys)
    ensures forall i, j :: 0 <= i < j < |Survivors(m, keys)| ==> Survivors(m, keys)[i].edge < Survivors(m, keys)[j].edge
    decreases |keys|
  {
    if |keys| > 0 {
      var tail := keys[1..];
      assert forall i :: 0 <= i < |tail| ==> tail[i] == keys[i + 1];
      SurvivorsAscending(m, tail);
      var rest := Survivors(m, tail);
      forall j | 0 <= j < |rest|
        ensures keys[0] < rest[j].edge
      {
        SurvivorsMembers(m, tail, rest[j]);
      }
    }
  }

  // ---------------------------------------------------------------------------
  // Attribute keys

  /** "EdgeIndex_" + decimal index + "_V0" or "_V1". */
  function BuildWedgeKey(wedgeIndex: nat, isV0: bool): string {
    "EdgeIndex_" + NatToString(wedgeIndex) + (if isV0 then "_V0" else "_V1")
  }

  /** Distinct (index, slot) pairs give distinct keys. */
  lemma BuildWedgeKeyInjective(i: nat, b: bool, j: nat, c: bool)
    requires i != j || b != c
    ensures BuildWedgeKey(i, b) != BuildWedgeKey(j, c)
  {
    var si, sj := NatToString(i), NatToString(j);
    var ti: string := if b then "_V0" else "_V1";
    var tj: string := if c then "_V0" else "_V1";
    if BuildWedgeKey(i, b) == BuildWedgeKey(j, c) {
      var ki, kj := BuildWedgeKey(i, b), BuildWedgeKey(j, c);
      assert |si| == |sj|;
      assert ki[10..10 + |si|] == si && kj[10..10 + |sj|] == sj;
      assert ki[10 + |si|..] == ti && kj[10 + |sj|..] == tj;
      assert ti[2] == tj[2];
      NatToStringInjective(i, j);
    }
  }

  lemma WedgeKeyIsNotCountKey(i: nat, b: bool)
    ensures BuildWedgeKey(i, b) != WedgeCountKey
  {
    assert BuildWedgeKey(i, b)[0] == 'E';
  }

  // ---------------------------------------------------------------------------
  // Emission

  /**
   * The loop over the sorted wedge map as written: a surviving wedge registers its two
   * transforms under number `next` and bumps it; a skipped one consumes no number.
   * Returns the writes and the final counter.
   */
  function EmitWedges(m: map<int, Wedge>, keys: seq<int>, next: nat): (seq<Write>, nat)
    requires forall i :: 0 <= i < |keys| ==> keys[i] in m
  {
    if |keys| == 0 then ([], next)
    else
      match Complete(m[keys[0]])
      case None => EmitWedges(m, keys[1..], next)
      case Some(p) =>
        var rest := EmitWedges(m, keys[1..], next + 1);
        (WedgeWrites(WedgeRecord(keys[0], p.0, p.1), next) + rest.0, rest.1)
  }

  /** The two registrations of one wedge under number n: V0 first, then V1. */
  function WedgeWrites(x: WedgeRecord, n: nat): seq<Write> {
    [Write(BuildWedgeKey(n, true), TransformAttribute(x.v0)), Write(BuildWedgeKey(n, false), TransformAttribute(x.v1))]
  }

  /** The wedges of `records` registered under numbers base, base + 1, ... in order. */
  function NumberedWrites(records: seq<WedgeRecord>, base: nat): (r: seq<Write>)
    ensures |r| == 2 * |records|
    decreases |records|
  {
    if |records| == 0 then [] else WedgeWrites(records[0], base) + NumberedWrites(records[1..], base + 1)
  }

  /** Wedge j of `records` sits at positions 2j (V0) and 2j + 1 (V1) under number base + j. */
  lemma {:induction false} NumberedWritesAt(records: seq<WedgeRecord>, base: nat, j: nat)
    requires j < |records|
    ensures NumberedWrites(records, base)[2 * j] == Write(BuildWedgeKey(base + j, true), TransformAttribute(records[j].v0))
    ensures NumberedWrites(records, base)[2 * j + 1] == Write(BuildWedgeKey(base + j, false), TransformAttribute(records[j].v1))
    decreases |records|
  {
    var head := WedgeWrites(records[0], base);
    var rest := NumberedWrites(records[1..], base + 1);
    assert NumberedWrites(records, base) == head + rest;
    if j > 0 {
      NumberedWritesAt(records[1..], base + 1, j - 1);
      assert records[1..][j - 1] == records[j];
      assert 2 * j == 2 + 2 * (j - 1);
    }
  }

  /** Unfolding of Survivors at a key whose wedge survives. */
  lemma SurvivorsKept(m: map<int, Wedge>, keys: seq<int>, p: (Transform, Transform))
    requires forall i :: 0 <= i < |keys| ==> keys[i] in m
    requires |keys| > 0 && Complete(m[keys[0]]) == Some(p)
    ensures Survivors(m, keys) == [WedgeRecord(keys[0], p.0, p.1)] + Survivors(m, keys[1..])
  {
  }

  /** Unfolding of NumberedWrites at its first record. */
  lemma NumberedWritesCons(h: WedgeRecord, rest: seq<WedgeRecord>, base: nat)
    ensures NumberedWrites([h] + rest, base) == WedgeWrites(h, base) + NumberedWrites(rest, base + 1)
  {
    assert ([h] + rest)[0] == h;
    assert ([h] + rest)[1..] == rest;
  }

  /** Unfolding of Survivors at a key whose wedge is skipped. */
  lemma SurvivorsSkipped(m: map<int, Wedge>, keys: seq<int>)
    requires forall i :: 0 <= i < |keys| ==> keys[i] in m
    requires |keys| > 0 && Complete(m[keys[0]]).None?
    ensures Survivors(m, keys) == Survivors(m, keys[1..])
  {
  }

  /** The loop numbers survivors contiguously from `next` and counts exactly them. */
  lemma {:induction false} EmitWedgesNumbersSurvivors(m: map<int, Wedge>, keys: seq<int>, next: nat)
    requires forall i :: 0 <= i < |keys| ==> keys[i] in m
    ensures EmitWedges(m, keys, next).0 == NumberedWrites(Survivors(m, keys), next)
    ensures EmitWedges(m, keys, next).1 == next + |Survivors(m, keys)|
    decreases |keys|
  {
    if |keys| > 0 {
      var tail := keys[1..];
      assert forall i :: 0 <= i < |tail| ==> tail[i] == keys[i + 1];
      var c := Complete(m[keys[0]]);
      if c.None? {
        EmitWedgesNumbersSurvivors(m, tail, next);
        SurvivorsSkipped(m, keys);
        assert EmitWedges(m, keys, next) == EmitWedges(m, tail, next);
      } else {
        var p := c.value;
        EmitWedgesNumbersSurvivors(m, tail, next + 1);
        SurvivorsKept(m, keys, p);
        var h := WedgeRecord(keys[0], p.0, p.1);
        NumberedWritesCons(h, Survivors(m, tail), next);
        var rest := EmitWedges(m, tail, next + 1);
        assert EmitWedges(m, keys, next) == (WedgeWrites(h, next) + rest.0, rest.1);
      }
    }
  }

  // ---------------------------------------------------------------------------
  // The pipeline step

  /** The three conditions under which anything is recorded at all. */
  predicate Enabled(container: Option<MeshContainer>, importWedges: bool) {
    container.Some? && importWedges && |container.value.staticMeshFactoryNodes| == 1
  }

  /** Every sorted key has an entry. */
  lemma SortedKeysPresent(w: WedgeMap)
    requires ValidWedgeMap(w)
    ensures forall i :: 0 <= i < |Sort(w.order)| ==> Sort(w.order)[i] in w.slots
  {
    var keys := Sort(w.order);
    assert forall i :: 0 <= i < |keys| ==> keys[i] in keys;
  }

  /** The wedges recorded for these scene nodes, in ascending edge order. */
  function EmittedWedges(atoi: string -> int, nodes: seq<SceneNode>): seq<WedgeRecord> {
    var w := CollectWedges(atoi, nodes);
    SortedKeysPresent(w);
    Survivors(w.slots, Sort(w.order))
  }

  function CountWrite(count: nat): seq<Write> {
    if count > 0 then [Write(WedgeCountKey, Int32Attribute(count))] else []
  }

  /** UCustomStaticMeshPipeline::ExecutePipeline: the attribute registrations it performs, in order. */
  function ExecutePipeline(container: Option<MeshContainer>, importWedges: bool, atoi: string -> int): (writes: seq<Write>)
    ensures writes != [] ==> Enabled(container, importWedges)
    ensures Enabled(container, importWedges) ==>
      var emitted := EmittedWedges(atoi, container.value.sceneNodes);
      writes == NumberedWrites(emitted, 0) + CountWrite(|emitted|)
  {
    if container.None? || !importWedges then []
    else if |container.value.staticMeshFactoryNodes| != 1 then []
    else
      var wedges := CollectWedges(atoi, container.value.sceneNodes);
      if |wedges.order| == 0 then
        assert Sort(wedges.order) == [];
        []
      else
        var keys := Sort(wedges.order);
        SortedKeysPresent(wedges);
        EmitWedgesNumbersSurvivors(wedges.slots, keys, 0);
        var (ws, count) := EmitWedges(wedges.slots, keys, 0);
        if count > 0 then ws + [Write(WedgeCountKey, Int32Attribute(count))] else ws
  }

  /**
   * Reference definition of a recorded wedge: the last node naming V0 and the last node
   * naming V1 of the edge both exist and carry transforms, and these are the record's.
   */
  predicate ExpectedRecord(atoi: string -> int, nodes: seq<SceneNode>, x: WedgeRecord) {
    var s0 := ExpectedSlot(atoi, nodes, EdgeSlot(x.edge, true));
    var s1 := ExpectedSlot(atoi, nodes, EdgeSlot(x.edge, false));
    && s0.Some? && s0.value.globalTransform == Some(x.v0)
    && s1.Some? && s1.value.globalTransform == Some(x.v1)
  }

  /**
   * Which wedges are recorded: exactly those the reference definition describes, in
   * strictly ascending edge order.
   */
  lemma EmittedWedgesSpec(atoi: string -> int, nodes: seq<SceneNode>, x: WedgeRecord)
    ensures x in EmittedWedges(atoi, nodes) <==> ExpectedRecord(atoi, nodes, x)
    ensures forall i, j :: 0 <= i < j < |EmittedWedges(atoi, nodes)| ==>
      EmittedWedges(atoi, nodes)[i].edge < EmittedWedges(atoi, nodes)[j].edge
  {
    var w := CollectWedges(atoi, nodes);
    var keys := Sort(w.order);
    var e0, e1 := EdgeSlot(x.edge, true), EdgeSlot(x.edge, false);
    SortedKeysPresent(w);
    SurvivorsMembers(w.slots, keys, x);
    SurvivorsAscending(w.slots, keys);
    CollectWedgesEntries(atoi, nodes, e0);
    CollectWedgesLastWriter(atoi, nodes, e0);
    CollectWedgesLastWriter(atoi, nodes, e1);
    assert Other(e0) == e1;
    assert x.edge in keys <==> x.edge in w.slots;
  }

  // ---------------------------------------------------------------------------
  // The resulting attribute storage

  /** Registering the writes in order; a later write to a key replaces an earlier one. */
  function ApplyWrites(attrs: map<string, Attribute>, ws: seq<Write>): map<string, Attribute>
    decreases |ws|
  {
    if |ws| == 0 then attrs else ApplyWrites(attrs[ws[0].key := ws[0].value], ws[1..])
  }

  lemma {:induction false} ApplyWritesKeys(attrs: map<string, Attribute>, ws: seq<Write>)
    ensures ApplyWrites(attrs, ws).Keys == attrs.Keys + (set w | w in ws :: w.key)
    decreases |ws|
  {
    if |ws| > 0 {
      ApplyWritesKeys(attrs[ws[0].key := ws[0].value], ws[1..]);
      assert (set w | w in ws :: w.key) == {ws[0].key} + (set w | w in ws[1..] :: w.key);
    }
  }

  lemma {:induction false} ApplyWritesLastWins(attrs: map<string, Attribute>, ws: seq<Write>, i: nat)
    requires i < |ws|
    requires forall k :: i < k < |ws| ==> ws[k].key != ws[i].key
    ensures ws[i].key in ApplyWrites(attrs, ws) && ApplyWrites(attrs, ws)[ws[i].key] == ws[i].value
    decreases |ws|
  {
    var next := attrs[ws[0].key := ws[0].value];
    if i == 0 {
      ApplyWritesUntouched(next, ws[1..], ws[0].key);
    } else {
      ApplyWritesLastWins(next, ws[1..], i - 1);
    }
  }

  lemma {:induction false} ApplyWritesUntouched(attrs: map<string, Attribute>, ws: seq<Write>, key: string)
    requires key in attrs
    requires forall k :: 0 <= k < |ws| ==> ws[k].key != key
    ensures key in ApplyWrites(attrs, ws) && ApplyWrites(attrs, ws)[key] == attrs[key]
    decreases |ws|
  {
    if |ws| > 0 {
      ApplyWritesUntouched(attrs[ws[0].key := ws[0].value], ws[1..], key);
    }
  }

  /** The key written at position `a`: wedge base + a/2, V0 at even positions. */
  lemma NumberedWriteKey(records: seq<WedgeRecord>, base: nat, a: nat)
    requires a < 2 * |records|
    ensures NumberedWrites(records, base)[a].key == BuildWedgeKey(base + a / 2, a % 2 == 0)
  {
    var j := a / 2;
    NumberedWritesAt(records, base, j);
    if a % 2 == 0 {
      assert a == 2 * j;
    } else {
      assert a == 2 * j + 1;
    }
  }

  /** The keys of the writes are pairwise distinct. */
  lemma {:induction false} WriteKeysDistinct(records: seq<WedgeRecord>, ws: seq<Write>)
    requires ws == NumberedWrites(records, 0) + CountWrite(|records|)
    ensures forall a, b :: 0 <= a < b < |ws| ==> ws[a].key != ws[b].key
  {
    var nw := NumberedWrites(records, 0);
    forall a, b | 0 <= a < b < |ws| ensures ws[a].key != ws[b].key {
      NumberedWriteKey(records, 0, a);
      assert ws[a] == nw[a];
      if b < |nw| {
        NumberedWriteKey(records, 0, b);
        assert ws[b] == nw[b];
        BuildWedgeKeyInjective(a / 2, a % 2 == 0, b / 2, b % 2 == 0);
      } else {
        assert ws[b].key == WedgeCountKey;
        WedgeKeyIsNotCountKey(a / 2, a % 2 == 0);
      }
    }
  }

  /** Every key written is a wedge slot key of a recorded wedge or the count key. */
  lemma WriteKeysNamed(records: seq<WedgeRecord>, a: nat)
    requires a < |NumberedWrites(records, 0) + CountWrite(|records|)|
    ensures var k := (NumberedWrites(records, 0) + CountWrite(|records|))[a].key;
      k == WedgeCountKey || (a / 2 < |records| && k == BuildWedgeKey(a / 2, a % 2 == 0))
  {
    var nw := NumberedWrites(records, 0);
    if a < |nw| {
      NumberedWriteKey(records, 0, a);
      assert (nw + CountWrite(|records|))[a] == nw[a];
    }
  }

  /** The attributes left on a node without any of these keys by the writes for `records`. */
  function RecordedFor(records: seq<WedgeRecord>): map<string, Attribute> {
    ApplyWrites(map[], NumberedWrites(records, 0) + CountWrite(|records|))
  }

  /** Wedge j's two transforms are stored under its two keys. */
  lemma RecordedWedge(records: seq<WedgeRecord>, j: nat)
    requires j < |records|
    ensures BuildWedgeKey(j, true) in RecordedFor(records)
    ensures RecordedFor(records)[BuildWedgeKey(j, true)] == TransformAttribute(records[j].v0)
    ensures BuildWedgeKey(j, false) in RecordedFor(records)
    ensures RecordedFor(records)[BuildWedgeKey(j, false)] == TransformAttribute(records[j].v1)
  {
    var nw := NumberedWrites(records, 0);
    var ws := nw + CountWrite(|records|);
    WriteKeysDistinct(records, ws);
    NumberedWritesAt(records, 0, j);
    assert ws[2 * j] == nw[2 * j] && ws[2 * j + 1] == nw[2 * j + 1];
    ApplyWritesLastWins(map[], ws, 2 * j);
    ApplyWritesLastWins(map[], ws, 2 * j + 1);
  }

  /** "WedgeCount" is stored exactly when there is a wedge, and then holds their number. */
  lemma RecordedCount(records: seq<WedgeRecord>)
    ensures WedgeCountKey in RecordedFor(records) <==> |records| > 0
    ensures |records| > 0 ==> RecordedFor(records)[WedgeCountKey] == Int32Attribute(|records|)
  {
    var nw := NumberedWrites(records, 0);
    var ws := nw + CountWrite(|records|);
    if |records| > 0 {
      WriteKeysDistinct(records, ws);
      assert ws[|nw|] == Write(WedgeCountKey, Int32Attribute(|records|));
      ApplyWritesLastWins(map[], ws, |nw|);
    } else {
      assert ws == [];
    }
  }

  /** No key is stored besides the wedge keys and "WedgeCount". */
  lemma RecordedKeysNamed(records: seq<WedgeRecord>, key: string)
    requires key in RecordedFor(records)
    ensures key == WedgeCountKey || exists j: nat, b :: j < |records| && key == BuildWedgeKey(j, b)
  {
    var ws := NumberedWrites(records, 0) + CountWrite(|records|);
    ApplyWritesKeys(map[], ws);
    var w :| w in ws && w.key == key;
    var a :| 0 <= a < |ws| && ws[a] == w;
    WriteKeysNamed(records, a);
  }

  /**
   * The attributes the pipeline leaves on a factory node that had none of these keys:
   * wedge j's transforms under its two keys, "WedgeCount" equal to the number of wedges
   * exactly when there is at least one, and no other key.
   */
  lemma RecordedAttributes(container: Option<MeshContainer>, importWedges: bool, atoi: string -> int)
    requires Enabled(container, importWedges)
    ensures
      var emitted := EmittedWedges(atoi, container.value.sceneNodes);
      var attrs := ApplyWrites(map[], ExecutePipeline(container, importWedges, atoi));
      && (WedgeCountKey in attrs <==> |emitted| > 0)
      && (|emitted| > 0 ==> attrs[WedgeCountKey] == Int32Attribute(|emitted|))
      && (forall j :: 0 <= j < |emitted| ==>
            && BuildWedgeKey(j, true) in attrs && attrs[BuildWedgeKey(j, true)] == TransformAttribute(emitted[j].v0)
            && BuildWedgeKey(j, false) in attrs && attrs[BuildWedgeKey(j, false)] == TransformAttribute(emitted[j].v1))
      && (forall key :: key in attrs ==> key == WedgeCountKey || exists j: nat, b :: j < |emitted| && key == BuildWedgeKey(j, b))
  {
    var emitted := EmittedWedges(atoi, container.value.sceneNodes);
    assert ApplyWrites(map[], ExecutePipeline(container, importWedges, atoi)) == RecordedFor(emitted);
    RecordedCount(emitted);
    forall j | 0 <= j < |emitted|
      ensures BuildWedgeKey(j, true) in RecordedFor(emitted) && RecordedFor(emitted)[BuildWedgeKey(j, true)] == TransformAttribute(emitted[j].v0)
      ensures BuildWedgeKey(j, false) in RecordedFor(emitted) && RecordedFor(emitted)[BuildWedgeKey(j, false)] == TransformAttribute(emitted[j].v1)
    {
      RecordedWedge(emitted, j);
    }
    forall key | key in RecordedFor(emitted)
      ensures key == WedgeCountKey || exists j: nat, b :: j < |emitted| && key == BuildWedgeKey(j, b)
    {
      RecordedKeysNamed(emitted, key);
    }
  }
}
