/** Values shared by every component: byte strings, optional values and blocks (types/types.go). */
module Types {

  type Byte = b: nat | b < 256

  /** Go byte slices and Go strings are both byte sequences. */
  type Bytes = seq<Byte>
  type NodeId = Bytes

  /** uint64 values, where their width matters. */
  const U64_LIMIT: nat := 0x1_0000_0000_0000_0000
  type U64 = x: nat | x < U64_LIMIT

  datatype Option<+T> = None | Some(value: T)

  datatype Block = Block(
    height: nat,
    prevHash: Bytes,
    proposer: NodeId,
    view: nat,
    txs: seq<Bytes>,
    hash: Bytes
  )

  function Flatten(parts: seq<Bytes>): Bytes {
    if parts == [] then [] else parts[0] + Flatten(parts[1..])
  }

  /** What ComputeHash feeds to SHA-256. Only the low byte of height and view is kept. */
  function HashInput(height: nat, prevHash: Bytes, proposer: NodeId, view: nat, txs: seq<Bytes>): Bytes {
    prevHash + proposer + [height % 256] + [view % 256] + Flatten(txs)
  }

  /** NewBlock; `hash` stands for SHA-256, about which nothing is assumed. */
  function NewBlock(hash: Bytes -> Bytes, height: nat, prevHash: Bytes, proposer: NodeId, view: nat,
                    txs: seq<Bytes>): Block {
    Block(height, prevHash, proposer, view, txs, hash(HashInput(height, prevHash, proposer, view, txs)))
  }
}
