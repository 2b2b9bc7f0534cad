/**
 * The slice of the engine's Interchange node model that the plugin reads and writes:
 * nodes as plain values (their attribute storage flattened into fields) and the node
 * container as an append-only list in iteration order. A node's position in the list
 * plays the role of its object pointer.
 */
module Interchange {
  import opened Wrappers

  datatype ContainerType = NoContainerType | TranslatedScene | TranslatedAsset | FactoryData

  /** The node classes the plugin casts to. */
  datatype NodeClass = DemoObjectNodeClass | DemoObjectFactoryNodeClass | OtherNodeClass

  datatype Unit = Millimeter | Centimeter | Meter

  /** The four user settings a factory node carries to the asset. */
  datatype AssetSettings = AssetSettings(flag: bool, number: real, text: string, unit: Unit)

  datatype Node = Node(
    uid: string,
    displayLabel: string,
    containerType: ContainerType,
    cls: NodeClass,
    payloadKey: Option<string>,
    targets: seq<string>,
    settings: Option<AssetSettings>,
    assetName: Option<string>)

  datatype Container = Container(nodes: seq<Node>)

  /** A node freshly built by InitializeNode: no payload, targets, settings or asset name. */
  function NewNode(uid: string, displayLabel: string, containerType: ContainerType, cls: NodeClass): Node {
    Node(uid, displayLabel, containerType, cls, None, [], None, None)
  }

  function AddNode(c: Container, n: Node): (r: Container)
    ensures |r.nodes| == |c.nodes| + 1
    ensures r.nodes[..|c.nodes|] == c.nodes && r.nodes[|c.nodes|] == n
  {
    Container(c.nodes + [n])
  }

  predicate IsNodeUidValid(c: Container, uid: string) {
    exists i :: 0 <= i < |c.nodes| && c.nodes[i].uid == uid
  }

  /** The first node carrying `uid`, as the container's uid lookup returns it. */
  function FindUid(nodes: seq<Node>, uid: string): (r: Option<nat>)
    ensures r.Some? ==> r.value < |nodes| && nodes[r.value].uid == uid
    ensures r.Some? ==> forall j :: 0 <= j < r.value ==> nodes[j].uid != uid
    ensures r.None? ==> forall j :: 0 <= j < |nodes| ==> nodes[j].uid != uid
  {
    if |nodes| == 0 then None
    else if nodes[0].uid == uid then Some(0)
    else
      match FindUid(nodes[1..], uid)
      case None => None
      case Some(k) => Some(k + 1)
  }

  /** AddTargetNodeUid on the node at position `i`. */
  function AddTarget(c: Container, i: nat, target: string): (r: Container)
    requires i < |c.nodes|
    ensures |r.nodes| == |c.nodes|
    ensures r.nodes[i].targets == c.nodes[i].targets + [target]
    ensures forall j :: 0 <= j < |c.nodes| && j != i ==> r.nodes[j] == c.nodes[j]
  {
    Container(c.nodes[i := c.nodes[i].(targets := c.nodes[i].targets + [target])])
  }
}
