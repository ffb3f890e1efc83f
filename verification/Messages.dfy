/** Consensus messages (consensus/pbft/messages.go), with payloads already decoded. */
module Messages {
  import opened Types

  /** `block` may be nil in the program. */
  datatype PrePrepareMsg = PrePrepareMsg(
    view: nat, seqNum: nat, digest: Bytes, block: Option<Block>, primaryId: NodeId)

  datatype PrepareMsg = PrepareMsg(view: nat, seqNum: nat, digest: Bytes, nodeId: NodeId)

  datatype CommitMsg = CommitMsg(view: nat, seqNum: nat, digest: Bytes, nodeId: NodeId)

  datatype Checkpoint = Checkpoint(seqNum: nat, digest: Bytes, nodeId: NodeId)

  datatype PreparedCert = PreparedCert(prePrepare: PrePrepareMsg, prepares: seq<PrepareMsg>)

  datatype ViewChangeMsg = ViewChangeMsg(
    newView: nat, lastSeqNum: nat, checkpoints: seq<Checkpoint>, preparedSet: seq<PreparedCert>, nodeId: NodeId)

  datatype NewViewMsg = NewViewMsg(
    view: nat, votes: seq<ViewChangeMsg>, prePrepares: seq<PrePrepareMsg>, newPrimaryId: NodeId)

  /** The envelope every message travels in. The handlers read some facts from the envelope and others from
      the payload, so both are kept even though honest senders make them agree. */
  datatype Message =
    | PrePrepareNet(view: nat, seqNum: nat, digest: Bytes, nodeId: NodeId, prePrepare: PrePrepareMsg)
    | PrepareNet(view: nat, seqNum: nat, digest: Bytes, nodeId: NodeId, prepare: PrepareMsg)
    | CommitNet(view: nat, seqNum: nat, digest: Bytes, nodeId: NodeId, commit: CommitMsg)
    | ViewChangeNet(view: nat, seqNum: nat, nodeId: NodeId, viewChange: ViewChangeMsg)
    | NewViewNet(view: nat, seqNum: nat, nodeId: NodeId, newView: NewViewMsg)
}
