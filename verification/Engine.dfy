/** One engine's transitions as values (consensus/pbft/engine_v2.go). The class EngineV2 is proved to take
    exactly these steps; runs of one node and of the whole network are made of them. */
module EngineRules {
  import opened Types
  import opened Messages
  import opened StateLogs
  import opened ViewChangeRules
  import opened ViewChange
  import Quorum

  /** `hash` stands for SHA-256. */
  datatype Config = Config(
    nodeId: NodeId,
    validators: seq<NodeId>,
    checkpointInterval: nat,
    windowSize: nat,
    hash: Bytes -> Bytes
  ) {
    /** The program divides by both numbers. */
    ghost predicate Valid() {
      validators != [] && checkpointInterval > 0
    }

    function QuorumSize(): nat {
      Quorum.QuorumSize(|validators|)
    }

    function Primary(view: nat): NodeId
      requires validators != []
    {
      validators[view % |validators|]
    }
  }

  datatype Engine = Engine(
    view: nat,
    sequenceNum: nat,
    log: Log,
    manager: Manager,
    checkpoints: map<nat, Bytes>,
    committed: seq<Block>,
    lastAppHash: Bytes
  )

  ghost function NewEngine(cfg: Config): Engine {
    Engine(0, 0, Log(map[], 0, cfg.windowSize, cfg.windowSize), NewManager(cfg.nodeId, cfg.QuorumSize()),
           map[], [], [])
  }

  /** A block handed to the application, which committed it. */
  datatype Execution = Execution(seqNum: nat, block: Block)

  datatype Outcome = Outcome(engine: Engine, sent: seq<Message>, executed: seq<Execution>)

  /** What the application answers to ProcessProposal. */
  datatype Verdict = ProcessFailed | Rejected | Accepted

  /** What the application answers to FinalizeBlock followed by Commit. */
  datatype Reply = FinalizeFailed | CommitFailed | Done(appHash: Bytes)

  ghost function Idle(e: Engine): Outcome {
    Outcome(e, [], [])
  }

  // ----- Normal case -----

  /** Transactions from the mempool, or else the request itself. */
  function TxsToPropose(op: Option<Bytes>, reaped: Option<seq<Bytes>>): seq<Bytes> {
    var txs := if reaped.Some? then reaped.value else [];
    if |txs| == 0 && op.Some? then [op.value] else txs
  }

  function PrevHash(committed: seq<Block>): Bytes {
    if |committed| > 0 then committed[|committed| - 1].hash else []
  }

  /** PrepareProposal: the transactions it is handed, and those it answers with unless it fails. */
  type Arrange = seq<Bytes> -> Option<seq<Bytes>>

  /** The next block of a primary in this state, holding `txs`. */
  ghost predicate IsNextBlock(cfg: Config, e: Engine, txs: seq<Bytes>, b: Block) {
    && b.txs == txs
    && b.height == e.sequenceNum + 1
    && b.view == e.view
    && b.proposer == cfg.nodeId
    && b.prevHash == (if e.committed == [] then [] else e.committed[|e.committed| - 1].hash)
    && b.hash == cfg.hash(b.prevHash + b.proposer + [b.height % 256] + [b.view % 256] + Flatten(b.txs))
  }

  /** The transactions a request puts before PrepareProposal: the mempool's, or else the request's own. */
  ghost predicate HandsOver(op: Option<Bytes>, reaped: Option<seq<Bytes>>, txs: seq<Bytes>) {
    if reaped.Some? && |reaped.value| > 0 then txs == reaped.value
    else if op.Some? then txs == [op.value]
    else txs == []
  }

  /** `reaped` is what the mempool returned, if there is one. */
  ghost function ProposeBlock(cfg: Config, e: Engine, op: Option<Bytes>, reaped: Option<seq<Bytes>>,
                              arrange: Arrange): Outcome {
    var seqNum := e.sequenceNum + 1;
    var counted := e.(sequenceNum := seqNum);
    if !e.log.InWindow(seqNum) then Idle(counted) else ProposeTxs(cfg, counted, TxsToPropose(op, reaped), arrange)
  }

  /** The counter goes back only if there is nothing to propose. */
  ghost function ProposeTxs(cfg: Config, e: Engine, txs: seq<Bytes>, arrange: Arrange): Outcome
    requires e.sequenceNum > 0
  {
    if txs == [] then Idle(e.(sequenceNum := e.sequenceNum - 1))
    else
      var arranged := arrange(txs);
      if arranged.None? then Idle(e) else BroadcastProposal(cfg, e, arranged.value)
  }

  /** The block for the number just counted is assembled, recorded with the primary's own vote, and sent. */
  ghost function BroadcastProposal(cfg: Config, e: Engine, txs: seq<Bytes>): Outcome {
    var seqNum := e.sequenceNum;
    var block := NewBlock(cfg.hash, seqNum, PrevHash(e.committed), cfg.nodeId, e.view, txs);
    var pp := PrePrepareMsg(e.view, seqNum, block.hash, Some(block), cfg.nodeId);
    var st := e.log.Fetch(e.view, seqNum).WithPrePrepare(pp)
              .WithPrepare(PrepareMsg(e.view, seqNum, block.hash, cfg.nodeId));
    Outcome(e.(log := e.log.Put(st)), [PrePrepareNet(e.view, seqNum, block.hash, cfg.nodeId, pp)], [])
  }

  /** The message carries the next block, holding what PrepareProposal answers to the transactions handed over. */
  ghost predicate ProposesArranged(cfg: Config, e: Engine, op: Option<Bytes>, reaped: Option<seq<Bytes>>,
                                   arrange: Arrange, m: Message)
  {
    && m.PrePrepareNet? && m.prePrepare.block.Some?
    && forall txs | HandsOver(op, reaped, txs) ::
         arrange(txs).Some? && IsNextBlock(cfg, e, arrange(txs).value, m.prePrepare.block.value)
  }

  lemma ProposalIsArranged(cfg: Config, e: Engine, op: Option<Bytes>, reaped: Option<seq<Bytes>>, arrange: Arrange)
    ensures var sent := ProposeBlock(cfg, e, op, reaped, arrange).sent;
            sent != [] ==> ProposesArranged(cfg, e, op, reaped, arrange, sent[0])
  {
  }

  /** The checks handlePrePrepare makes before it looks at the proposal itself. */
  ghost predicate Considers(cfg: Config, e: Engine, msg: Message)
    requires cfg.Valid() && msg.PrePrepareNet?
  {
    msg.nodeId == cfg.Primary(e.view) && msg.view == e.view && e.log.InWindow(msg.seqNum)
  }

  /** A proposal without a block that gets past these checks makes the program stop with a nil dereference. */
  ghost predicate Crashes(cfg: Config, e: Engine, msg: Message)
    requires cfg.Valid() && msg.PrePrepareNet?
  {
    Considers(cfg, e, msg) && msg.prePrepare.block.None?
  }

  ghost function HandlePrePrepare(cfg: Config, e: Engine, msg: Message, verdict: Verdict): Outcome
    requires cfg.Valid() && msg.PrePrepareNet?
  {
    if !Considers(cfg, e, msg) || verdict != Accepted then Idle(e)
    else
      var prepare := PrepareMsg(msg.view, msg.seqNum, msg.digest, cfg.nodeId);
      var st := e.log.Fetch(msg.view, msg.seqNum).WithPrePrepare(msg.prePrepare).WithPrepare(prepare);
      Outcome(e.(log := e.log.Put(st)),
              [PrepareNet(msg.view, msg.seqNum, msg.digest, cfg.nodeId, prepare)], [])
  }

  ghost function HandlePrepare(cfg: Config, e: Engine, msg: Message): Outcome
    requires msg.PrepareNet?
  {
    if msg.view != e.view || msg.seqNum !in e.log.states then Idle(e)
    else
      var st := e.log.states[msg.seqNum].WithPrepare(msg.prepare);
      if st.IsPrepared(cfg.QuorumSize()) && st.phase == PrePrepared then
        var commit := CommitMsg(msg.view, msg.seqNum, msg.digest, cfg.nodeId);
        Outcome(e.(log := e.log.Put(st.(phase := Prepared).WithCommit(commit))),
                [CommitNet(msg.view, msg.seqNum, msg.digest, cfg.nodeId, commit)], [])
      else Idle(e.(log := e.log.Put(st)))
  }

  ghost function HandleCommit(cfg: Config, e: Engine, msg: Message, reply: Reply): Outcome
    requires cfg.Valid() && msg.CommitNet?
  {
    if msg.view != e.view || msg.seqNum !in e.log.states then Idle(e)
    else
      var st := e.log.states[msg.seqNum].WithCommit(msg.commit);
      if st.IsCommitted(cfg.QuorumSize()) && st.phase == Prepared then
        ExecuteBlock(cfg, e, st.(phase := Committed), reply)
      else Idle(e.(log := e.log.Put(st)))
  }

  /** The engine once the block of `st` is executed, before any checkpoint. */
  ghost function Executed(e: Engine, st: SeqState, appHash: Bytes): Engine
    requires st.block.Some?
  {
    e.(log := e.log.Put(st.(executed := true)), committed := e.committed + [st.block.value], lastAppHash := appHash)
  }

  /** Execute the block of `st`, which takes its place in the log. */
  ghost function ExecuteBlock(cfg: Config, e: Engine, st: SeqState, reply: Reply): Outcome
    requires cfg.Valid()
  {
    if st.executed || st.block.None? || !reply.Done? then Idle(e.(log := e.log.Put(st)))
    else
      var done := Executed(e, st, reply.appHash);
      Outcome(
        if st.seqNum % cfg.checkpointInterval == 0 then CreateCheckpoint(done, st.seqNum) else done,
        [], [Execution(st.seqNum, st.block.value)])
  }

  /** Filing the state before executing it changes nothing. */
  lemma ExecuteFiled(cfg: Config, e: Engine, st: SeqState, reply: Reply)
    requires cfg.Valid()
    ensures ExecuteBlock(cfg, e.(log := e.log.Put(st)), st, reply) == ExecuteBlock(cfg, e, st, reply)
  {
    PutTwice(e.log, st, st);
    PutTwice(e.log, st, st.(executed := true));
  }

  ghost function Smallest(s: set<nat>): (m: nat)
    requires s != {}
    ensures m in s && forall x <- s :: m <= x
  {
    var x :| x in s;
    if s == {x} then x
    else
      var m := Smallest(s - {x});
      assert s == {x} + (s - {x});
      if x < m then x else m
  }

  ghost function Prune(cps: map<nat, Bytes>, seqNum: nat): map<nat, Bytes> {
    if |cps| > 3 then cps - {Smallest({seqNum} + cps.Keys)} else cps
  }

  ghost function CreateCheckpoint(e: Engine, seqNum: nat): Engine {
    var cps := if |e.committed| > 0 then e.checkpoints[seqNum := PrevHash(e.committed)] else e.checkpoints;
    e.(checkpoints := Prune(cps, seqNum), log := e.log.Advance(seqNum))
  }

  // ----- View changes -----

  /** `cps` is one iteration order of the checkpoint map. */
  ghost predicate ListsCheckpoints(cps: seq<Checkpoint>, m: map<nat, Bytes>, nodeId: NodeId) {
    && |cps| == |m|
    && (forall i, j | 0 <= i < j < |cps| :: cps[i].seqNum != cps[j].seqNum)
    && (forall c <- cps :: c.seqNum in m && m[c.seqNum] == c.digest && c.nodeId == nodeId)
  }

  ghost predicate ListsPrepares(ps: seq<PrepareMsg>, m: map<NodeId, PrepareMsg>) {
    && |ps| == |m|
    && (forall p <- ps :: p in m.Values)
    && (forall id <- m :: m[id] in ps)
  }

  /** The states a view-change vote reports: prepared, not yet executed. */
  ghost predicate Reportable(log: Log, quorum: nat, seqNum: nat) {
    && log.InWindow(seqNum) && seqNum in log.states
    && log.states[seqNum].IsPrepared(quorum)
    && !log.states[seqNum].executed
    && log.states[seqNum].prePrepare.Some?
  }

  ghost predicate IsCertOf(view: nat, log: Log, c: PreparedCert) {
    var s := c.prePrepare.seqNum;
    && s in log.states && log.states[s].prePrepare.Some?
    && var pp := log.states[s].prePrepare.value;
    && c.prePrepare == PrePrepareMsg(view, s, pp.digest, log.states[s].block, pp.primaryId)
    && ListsPrepares(c.prepares, log.states[s].prepares)
  }

  /** The certificates for numbers below `bound`: one for each reportable number, in ascending order. */
  ghost predicate IsPreparedSet(view: nat, log: Log, quorum: nat, certs: seq<PreparedCert>, bound: nat) {
    && (forall i, j | 0 <= i < j < |certs| :: certs[i].prePrepare.seqNum < certs[j].prePrepare.seqNum)
    && (forall c <- certs :: c.prePrepare.seqNum < bound && Reportable(log, quorum, c.prePrepare.seqNum)
                             && IsCertOf(view, log, c))
    && (forall s: nat | s < bound && Reportable(log, quorum, s) :: exists c <- certs :: c.prePrepare.seqNum == s)
  }

  ghost predicate IsVote(cfg: Config, e: Engine, vote: ViewChangeMsg) {
    && vote.newView == e.view + 1
    && vote.lastSeqNum == e.sequenceNum
    && vote.nodeId == e.manager.nodeId
    && ListsCheckpoints(vote.checkpoints, e.checkpoints, cfg.nodeId)
    && IsPreparedSet(e.view, e.log, cfg.QuorumSize(), vote.preparedSet, e.log.high + 1)
  }

  ghost predicate StartViewChange(cfg: Config, e: Engine, out: Outcome) {
    if e.view + 1 <= e.manager.currentView then out == Idle(e)
    else
      && |out.sent| == 1 && out.sent[0].ViewChangeNet?
      && var vote := out.sent[0].viewChange;
      && IsVote(cfg, e, vote)
      && out == Outcome(e.(manager := e.manager.(inProgress := true).Record(vote)),
                        [ViewChangeNet(vote.newView, vote.lastSeqNum, e.manager.nodeId, vote)], [])
  }

  ghost predicate HandleViewChange(cfg: Config, e: Engine, msg: Message, out: Outcome)
    requires cfg.Valid() && msg.ViewChangeNet?
  {
    var vote := msg.viewChange;
    if vote.newView <= e.view then out == Idle(e)
    else
      var recorded := e.(manager := e.manager.Record(vote));
      if |recorded.manager.Table(vote.newView)| >= recorded.manager.quorum && cfg.Primary(vote.newView) == cfg.nodeId
      then BroadcastNewView(cfg, recorded, vote.newView, out)
      else out == Idle(recorded)
  }

  /** The new primary sends the message it built and adopts the view itself if its own check passes. */
  ghost predicate BroadcastNewView(cfg: Config, e: Engine, newView: nat, out: Outcome) {
    && |out.sent| == 1 && out.sent[0].NewViewNet?
    && var msg := out.sent[0].newView;
    && Lists(msg.votes, e.manager.Table(newView))
    && msg == BuildNewView(newView, msg.votes, e.manager.nodeId)
    && out == Outcome(
                if Acceptable(msg, e.manager.quorum) then e.(manager := e.manager.Adopt(msg), view := newView) else e,
                [NewViewNet(newView, e.sequenceNum, cfg.nodeId, msg)], [])
  }

  /** What a NEW-VIEW must satisfy for its receiver to move to its view. */
  ghost predicate Adopts(cfg: Config, e: Engine, nv: NewViewMsg)
    requires cfg.Valid()
  {
    nv.view > e.view && nv.newPrimaryId == cfg.Primary(nv.view) && Acceptable(nv, e.manager.quorum)
  }

  ghost function HandleNewView(cfg: Config, e: Engine, msg: Message): Outcome
    requires cfg.Valid() && msg.NewViewNet?
  {
    var nv := msg.newView;
    if !Adopts(cfg, e, nv) then Idle(e)
    else
      Outcome(e.(manager := e.manager.Adopt(nv), view := nv.view, log := Reprocess(e.log, nv.prePrepares, nv.view)),
              ReprocessSends(cfg, nv.prePrepares, nv.view), [])
  }

  /** reprocessPrePrepare over a list: each re-proposal is installed, with no window check. */
  ghost function Reprocess(log: Log, pps: seq<PrePrepareMsg>, newView: nat): Log {
    if pps == [] then log
    else
      var before := Reprocess(log, pps[..|pps| - 1], newView);
      var pp := pps[|pps| - 1].(view := newView);
      before.Put(before.Fetch(newView, pp.seqNum).WithPrePrepare(pp))
  }

  ghost function ReprocessSends(cfg: Config, pps: seq<PrePrepareMsg>, newView: nat): seq<Message> {
    seq(|pps|, i requires 0 <= i < |pps| =>
      PrepareNet(newView, pps[i].seqNum, pps[i].digest, cfg.nodeId,
                 PrepareMsg(newView, pps[i].seqNum, pps[i].digest, cfg.nodeId)))
  }

  /** Every state is filed under its own number. */
  ghost predicate Keyed(log: Log) {
    forall s <- log.states :: log.states[s].seqNum == s
  }

  /** The last re-proposal for a number in the list. */
  ghost function LastProposal(pps: seq<PrePrepareMsg>, seqNum: nat): (r: Option<PrePrepareMsg>)
    ensures r.Some? ==> r.value in pps && r.value.seqNum == seqNum
    ensures r.None? ==> forall pp <- pps :: pp.seqNum != seqNum
  {
    if pps == [] then None
    else
      var init, last := pps[..|pps| - 1], pps[|pps| - 1];
      assert pps == init + [last];
      if last.seqNum == seqNum then Some(last) else LastProposal(init, seqNum)
  }

  /** The last re-proposal for a number is the one that counts; votes and the executed flag stay as they were. */
  lemma {:induction false} ReprocessAt(log: Log, pps: seq<PrePrepareMsg>, view: nat, s: nat)
    requires Keyed(log)
    ensures Keyed(Reprocess(log, pps, view))
    ensures var log' := Reprocess(log, pps, view);
            && log'.low == log.low && log'.high == log.high && log'.window == log.window
            && match LastProposal(pps, s)
               case None =>
                 (s in log'.states <==> s in log.states) && (s in log.states ==> log'.states[s] == log.states[s])
               case Some(pp) =>
                 s in log'.states && log'.states[s] == log.Fetch(view, s).WithPrePrepare(pp.(view := view))
  {
    if pps != [] {
      ReprocessAt(log, pps[..|pps| - 1], view, s);
    }
  }

  // ----- Steps -----

  /** What can happen to a node: a client request, a message with the application's answers, a timeout. */
  datatype Event =
    | Request(op: Option<Bytes>, reaped: Option<seq<Bytes>>, arrange: Arrange)
    | Deliver(msg: Message, verdict: Verdict, reply: Reply)
    | Timeout

  /** One turn of the engine's loop. When the program stops, nothing follows. */
  ghost predicate Next(cfg: Config, e: Engine, ev: Event, out: Outcome)
    requires cfg.Valid()
  {
    match ev
    case Request(op, reaped, arrange) =>
      out == if cfg.Primary(e.view) == cfg.nodeId then ProposeBlock(cfg, e, op, reaped, arrange) else Idle(e)
    case Timeout => StartViewChange(cfg, e, out)
    case Deliver(msg, verdict, reply) =>
      match msg
      case PrePrepareNet(_, _, _, _, _) => !Crashes(cfg, e, msg) && out == HandlePrePrepare(cfg, e, msg, verdict)
      case PrepareNet(_, _, _, _, _) => out == HandlePrepare(cfg, e, msg)
      case CommitNet(_, _, _, _, _) => out == HandleCommit(cfg, e, msg, reply)
      case ViewChangeNet(_, _, _, _) => HandleViewChange(cfg, e, msg, out)
      case NewViewNet(_, _, _, _) => out == HandleNewView(cfg, e, msg)
  }
}
