/**
 The Merkle DAG that `dag/put` writes. A block's CID is modelled by the block itself, which is
 what "content addressed, without hash collisions" means; any other CID is an opaque leaf.
 */
module Dag {
  import opened Prelude

  datatype Cid = Leaf(bytes: Bytes) | Block(node: Node)

  datatype Node = Node(data: Bytes, links: seq<Link>)

  datatype Link = Link(name: Bytes, cid: Cid, size: nat)
}
