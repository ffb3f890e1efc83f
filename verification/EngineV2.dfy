/** The engine object (consensus/pbft/engine_v2.go): its handlers update fields in place, and each is proved to
    take the step that EngineRules gives. Calls out of the engine appear as values: `sent` is what was
    broadcast, `executed` the blocks the application committed, and the application's answers are arguments. */
module Engines {
  import opened Types
  import opened Messages
  import opened StateLogs
  import opened ViewChange
  import opened EngineRules

  class EngineV2 {
    const config: Config
    var view: nat
    var sequenceNum: nat
    const stateLog: StateLog
    const viewChangeManager: ViewChangeManager
    var checkpoints: map<nat, Bytes>
    var committedBlocks: seq<Block>
    var lastAppHash: Bytes

    ghost predicate Valid()
      reads this, stateLog, stateLog.states.Values, viewChangeManager
    {
      && config.Valid()
      && stateLog.Valid()
      && viewChangeManager.Valid()
    }

    ghost function Model(): Engine
      reads this, stateLog, viewChangeManager
    {
      Engine(view, sequenceNum, stateLog.Model(), viewChangeManager.Model(), checkpoints, committedBlocks, lastAppHash)
    }

    constructor (config: Config)
      requires config.Valid()
      ensures Valid() && fresh(stateLog) && fresh(viewChangeManager) && stateLog.states == map[]
      ensures this.config == config && Model() == NewEngine(config)
      ensures Model() == Engine(0, 0, Log(map[], 0, config.windowSize, config.windowSize),
                                Manager(0, map[], map[], false, 2 * ((|config.validators| - 1) / 3) + 1, config.nodeId),
                                map[], [], [])
    {
      this.config := config;
      view, sequenceNum := 0, 0;
      stateLog := new StateLog(config.windowSize);
      checkpoints, committedBlocks, lastAppHash := map[], [], [];
      viewChangeManager := new ViewChangeManager(config.nodeId, config.QuorumSize());
    }

    /** One round of the loop in run, or the view-change timer; `crashed` is the nil dereference of a proposal without
        a block, after which nothing follows. */
    method TakeTurn(ev: Event) returns (sent: seq<Message>, executed: seq<Execution>, crashed: bool)
      requires Valid()
      modifies this, stateLog, stateLog.states.Values, viewChangeManager
      ensures Valid() && fresh(stateLog.states.Values - old(stateLog.states.Values))
      ensures crashed <==> ev.Deliver? && ev.msg.PrePrepareNet? && Crashes(config, old(Model()), ev.msg)
      ensures if crashed then Model() == old(Model()) && sent == [] && executed == []
              else Next(config, old(Model()), ev, Outcome(Model(), sent, executed))
    {
      sent, executed, crashed := [], [], false;
      match ev
      case Request(op, reaped, arrange) =>
        var primary := IsPrimary();
        if primary {
          sent := ProposeBlock(op, reaped, arrange);
        }
      case Timeout => sent := StartViewChange();
      case Deliver(msg, verdict, reply) =>
        sent, executed, crashed := HandleMessage(msg, verdict, reply);
    }

    method HandleMessage(msg: Message, verdict: Verdict, reply: Reply)
      returns (sent: seq<Message>, executed: seq<Execution>, crashed: bool)
      requires Valid()
      modifies this, stateLog, stateLog.states.Values, viewChangeManager
      ensures Valid() && fresh(stateLog.states.Values - old(stateLog.states.Values))
      ensures crashed <==> msg.PrePrepareNet? && Crashes(config, old(Model()), msg)
      ensures if crashed then Model() == old(Model()) && sent == [] && executed == []
              else Next(config, old(Model()), Deliver(msg, verdict, reply), Outcome(Model(), sent, executed))
    {
      sent, executed, crashed := [], [], false;
      match msg
      case PrePrepareNet(_, _, _, _, _) => sent, crashed := HandlePrePrepare(msg, verdict);
      case PrepareNet(_, _, _, _, _) => sent := HandlePrepare(msg);
      case CommitNet(_, _, _, _, _) => executed := HandleCommit(msg, reply);
      case ViewChangeNet(_, _, _, _) => sent := HandleViewChange(msg);
      case NewViewNet(_, _, _, _) => sent := HandleNewView(msg);
    }

    method IsPrimary() returns (r: bool)
      requires config.Valid()
      ensures r <==> config.Primary(view) == config.nodeId
    {
      var primaryIdx := view % |config.validators|;
      r := config.validators[primaryIdx] == config.nodeId;
    }

    method ProposeBlock(op: Option<Bytes>, reaped: Option<seq<Bytes>>, arrange: Arrange)
      returns (sent: seq<Message>)
      requires Valid()
      modifies `sequenceNum, stateLog, stateLog.states.Values
      ensures Valid() && fresh(stateLog.states.Values - old(stateLog.states.Values))
      ensures Outcome(Model(), sent, []) == EngineRules.ProposeBlock(config, old(Model()), op, reaped, arrange)
      ensures sent != [] ==>
                ProposesArranged(config, old(Model()), op, reaped, arrange, sent[0])
    {
      ghost var step := EngineRules.ProposeBlock(config, Model(), op, reaped, arrange);
      NextNumber();
      ghost var counted := Model();
      var inWindow := stateLog.IsInWindow(sequenceNum);
      if !inWindow {
        return [];
      }
      sent := ProposeTxs(TxsToPropose(op, reaped), arrange);
      assert step == EngineRules.ProposeTxs(config, counted, TxsToPropose(op, reaped), arrange);
      ProposalIsArranged(config, old(Model()), op, reaped, arrange);
    }

    method NextNumber()
      requires Valid()
      modifies `sequenceNum
      ensures Valid() && Model() == old(Model()).(sequenceNum := old(sequenceNum) + 1)
    {
      sequenceNum := sequenceNum + 1;
    }

    /** From the check for transactions on. */
    method ProposeTxs(txs: seq<Bytes>, arrange: Arrange) returns (sent: seq<Message>)
      requires Valid() && sequenceNum > 0
      modifies `sequenceNum, stateLog, stateLog.states.Values
      ensures Valid() && fresh(stateLog.states.Values - old(stateLog.states.Values))
      ensures Outcome(Model(), sent, []) == EngineRules.ProposeTxs(config, old(Model()), txs, arrange)
    {
      if |txs| == 0 {
        sequenceNum := sequenceNum - 1;
        return [];
      }
      var arranged := arrange(txs);
      if arranged.None? {
        return [];
      }
      sent := BroadcastProposal(sequenceNum, arranged.value);
    }

    /** The block is built, recorded and sent. */
    method BroadcastProposal(seqNum: nat, txs: seq<Bytes>) returns (sent: seq<Message>)
      requires Valid() && seqNum == sequenceNum > 0
      modifies stateLog, stateLog.states.Values
      ensures Valid() && fresh(stateLog.states.Values - old(stateLog.states.Values))
      ensures Outcome(Model(), sent, []) == EngineRules.BroadcastProposal(config, old(Model()), txs)
      ensures |sent| == 1 && sent[0].PrePrepareNet? && sent[0].prePrepare.block.Some?
      ensures var before := old(Model()).(sequenceNum := sequenceNum - 1);
              IsNextBlock(config, before, txs, sent[0].prePrepare.block.value)
    {
      var prevHash: Bytes := [];
      if |committedBlocks| > 0 {
        prevHash := committedBlocks[|committedBlocks| - 1].hash;
      }
      var block := NewBlock(config.hash, seqNum, prevHash, config.nodeId, view, txs);
      var prePrepareMsg := PrePrepareMsg(view, seqNum, block.hash, Some(block), config.nodeId);
      Install(view, seqNum, prePrepareMsg, Some(PrepareMsg(view, seqNum, block.hash, config.nodeId)));
      sent := [PrePrepareNet(view, seqNum, block.hash, config.nodeId, prePrepareMsg)];
    }

    /** The state for `seqNum` takes the pre-prepare and, where the caller adds it, this node's own prepare. */
    method Install(view: nat, seqNum: nat, msg: PrePrepareMsg, own: Option<PrepareMsg>)
      requires stateLog.Valid()
      modifies stateLog, stateLog.states.Values
      ensures stateLog.Valid() && fresh(stateLog.states.Values - old(stateLog.states.Values))
      ensures var st := old(stateLog.Model()).Fetch(view, seqNum).WithPrePrepare(msg);
              stateLog.Model() == old(stateLog.Model()).Put(if own.Some? then st.WithPrepare(own.value) else st)
    {
      ghost var before := stateLog.Model();
      var state := stateLog.GetState(view, seqNum);
      ghost var fetched := state.Model();
      SetProposal(state, msg, own);
      PutTwice(before, fetched, state.Model());
    }

    method SetProposal(state: State, msg: PrePrepareMsg, own: Option<PrepareMsg>)
      requires stateLog.Valid()
      requires state.sequenceNum in stateLog.states && stateLog.states[state.sequenceNum] == state
      modifies stateLog`contents, state
      ensures stateLog.Valid()
      ensures var st := old(state.Model()).WithPrePrepare(msg);
              state.Model() == if own.Some? then st.WithPrepare(own.value) else st
      ensures stateLog.Model() == old(stateLog.Model()).Put(state.Model())
    {
      state.SetPrePrepare(msg, msg.block);
      if own.Some? {
        state.AddPrepare(own.value);
      }
      stateLog.Track(state);
    }

    /** `crashed` is the nil dereference of a proposal without a block. */
    method HandlePrePrepare(msg: Message, verdict: Verdict) returns (sent: seq<Message>, crashed: bool)
      requires Valid() && msg.PrePrepareNet?
      modifies stateLog, stateLog.states.Values
      ensures Valid() && fresh(stateLog.states.Values - old(stateLog.states.Values))
      ensures crashed <==> Crashes(config, old(Model()), msg)
      ensures if crashed then Model() == old(Model()) && sent == []
              else Outcome(Model(), sent, []) == EngineRules.HandlePrePrepare(config, old(Model()), msg, verdict)
      ensures verdict != Accepted || msg.view != view ==> Model() == old(Model()) && sent == []
    {
      sent, crashed := [], false;
      if msg.nodeId != config.validators[view % |config.validators|] {
        return;
      }
      if msg.view != view {
        return;
      }
      var inWindow := stateLog.IsInWindow(msg.seqNum);
      if !inWindow {
        return;
      }
      if msg.prePrepare.block.None? {
        return [], true;
      }
      if verdict == ProcessFailed {
        return;
      }
      if verdict == Rejected {
        return;
      }
      var prepareMsg := PrepareMsg(msg.view, msg.seqNum, msg.digest, config.nodeId);
      Install(msg.view, msg.seqNum, msg.prePrepare, Some(prepareMsg));
      sent := [PrepareNet(msg.view, msg.seqNum, msg.digest, config.nodeId, prepareMsg)];
    }

    method HandlePrepare(msg: Message) returns (sent: seq<Message>)
      requires Valid() && msg.PrepareNet?
      modifies stateLog, stateLog.states.Values
      ensures Valid() && stateLog.states.Values <= old(stateLog.states.Values)
      ensures Outcome(Model(), sent, []) == EngineRules.HandlePrepare(config, old(Model()), msg)
      ensures msg.view != view ==> Model() == old(Model()) && sent == []
    {
      if msg.view != view {
        return [];
      }
      var state := stateLog.GetExistingState(msg.seqNum);
      if state == null {
        return [];
      }
      ghost var step := EngineRules.HandlePrepare(config, Model(), msg);
      var commitMsg := CommitMsg(msg.view, msg.seqNum, msg.digest, config.nodeId);
      var ready := CountPrepare(state, msg.prepare, commitMsg);
      sent := if ready then [CommitNet(msg.view, msg.seqNum, msg.digest, config.nodeId, commitMsg)] else [];
      assert Outcome(Model(), sent, []) == step;
    }

    /** handlePrepare's work on a tracked state; true if it is now prepared for the first time. */
    method CountPrepare(state: State, prepare: PrepareMsg, own: CommitMsg) returns (ready: bool)
      requires stateLog.Valid()
      requires state.sequenceNum in stateLog.states && stateLog.states[state.sequenceNum] == state
      modifies stateLog`contents, state
      ensures stateLog.Valid()
      ensures var voted := old(state.Model()).WithPrepare(prepare);
              && (ready <==> voted.IsPrepared(config.QuorumSize()) && voted.phase == PrePrepared)
              && state.Model() == (if ready then voted.(phase := Prepared).WithCommit(own) else voted)
              && stateLog.Model() == old(stateLog.Model()).Put(state.Model())
    {
      state.AddPrepare(prepare);
      var quorum := config.QuorumSize();
      var prepared := state.IsPrepared(quorum);
      ready := prepared && state.phase == PrePrepared;
      if ready {
        state.TransitionToPrepared();
        state.AddCommit(own);
      }
      stateLog.Track(state);
    }

    method HandleCommit(msg: Message, reply: Reply) returns (executed: seq<Execution>)
      requires Valid() && msg.CommitNet?
      modifies `lastAppHash, `committedBlocks, `checkpoints, stateLog, stateLog.states.Values
      ensures Valid() && stateLog.states.Values <= old(stateLog.states.Values)
      ensures Outcome(Model(), [], executed) == EngineRules.HandleCommit(config, old(Model()), msg, reply)
      ensures msg.view != view ==> Model() == old(Model()) && executed == []
    {
      if msg.view != view {
        return [];
      }
      var state := stateLog.GetExistingState(msg.seqNum);
      if state == null {
        return [];
      }
      ghost var e, voted := Model(), state.Model().WithCommit(msg.commit);
      var ready := CountCommit(state, msg.commit);
      if ready {
        ExecuteFiled(config, e, voted.(phase := Committed), reply);
        executed := ExecuteBlock(state, reply);
      } else {
        executed := [];
      }
    }

    /** handleCommit's work on a tracked state before any execution; true if it is now committed for the first time. */
    method CountCommit(state: State, commit: CommitMsg) returns (ready: bool)
      requires stateLog.Valid()
      requires state.sequenceNum in stateLog.states && stateLog.states[state.sequenceNum] == state
      modifies stateLog`contents, state
      ensures stateLog.Valid()
      ensures var voted := old(state.Model()).WithCommit(commit);
              && (ready <==> voted.IsCommitted(config.QuorumSize()) && voted.phase == Prepared)
              && state.Model() == (if ready then voted.(phase := Committed) else voted)
              && stateLog.Model() == old(stateLog.Model()).Put(state.Model())
    {
      state.AddCommit(commit);
      var committed := state.IsCommitted(config.QuorumSize());
      ready := committed && state.phase == Prepared;
      if ready {
        state.TransitionToCommitted();
      }
      stateLog.Track(state);
    }

    method ExecuteBlock(state: State, reply: Reply) returns (executed: seq<Execution>)
      requires Valid()
      requires state.sequenceNum in stateLog.states && stateLog.states[state.sequenceNum] == state
      modifies `lastAppHash, `committedBlocks, `checkpoints, stateLog, state
      ensures Valid() && stateLog.states.Values <= old(stateLog.states.Values)
      ensures Outcome(Model(), [], executed) ==
              EngineRules.ExecuteBlock(config, old(Model()), old(state.Model()), reply)
      ensures executed != [] <==> reply.Done? && !old(state.executed) && old(state.block).Some?
      ensures executed != [] ==>
                lastAppHash == reply.appHash && committedBlocks == old(committedBlocks) + [executed[0].block]
      ensures executed == [] ==> Model() == old(Model())
    {
      ghost var step := EngineRules.ExecuteBlock(config, Model(), state.Model(), reply);
      PutBack(stateLog.Model(), state.sequenceNum);
      if state.executed || state.block.None? {
        return [];
      }
      if reply == FinalizeFailed {
        return [];
      }
      if reply == CommitFailed {
        return [];
      }
      RecordExecution(state, reply.appHash);
      executed := [Execution(state.sequenceNum, state.block.value)];
      if state.sequenceNum % config.checkpointInterval == 0 {
        CreateCheckpoint(state.sequenceNum);
      }
      assert Outcome(Model(), [], executed) == step;
    }

    /** What executeBlock records once the application has committed. */
    method RecordExecution(state: State, appHash: Bytes)
      requires Valid() && state.block.Some?
      requires state.sequenceNum in stateLog.states && stateLog.states[state.sequenceNum] == state
      modifies `lastAppHash, `committedBlocks, stateLog`contents, state
      ensures Valid() && Model() == Executed(old(Model()), old(state.Model()), appHash)
      ensures state.block == old(state.block)
    {
      ghost var done := Executed(Model(), state.Model(), appHash);
      lastAppHash := appHash;
      MarkTracked(state);
      committedBlocks := committedBlocks + [state.block.value];
      assert Model() == done;
    }

    method MarkTracked(state: State)
      requires stateLog.Valid()
      requires state.sequenceNum in stateLog.states && stateLog.states[state.sequenceNum] == state
      modifies stateLog`contents, state
      ensures stateLog.Valid() && state.Model() == old(state.Model()).(executed := true)
      ensures stateLog.Model() == old(stateLog.Model()).Put(state.Model())
    {
      state.MarkExecuted();
      stateLog.Track(state);
    }

    method CreateCheckpoint(seqNum: nat)
      requires Valid()
      modifies `checkpoints, stateLog
      ensures Valid() && stateLog.states.Values <= old(stateLog.states.Values)
      ensures Model() == EngineRules.CreateCheckpoint(old(Model()), seqNum)
    {
      if |committedBlocks| > 0 {
        var lastBlock := committedBlocks[|committedBlocks| - 1];
        checkpoints := checkpoints[seqNum := lastBlock.hash];
      }
      if |checkpoints| > 3 {
        var oldestSeq := OldestCheckpoint(seqNum);
        checkpoints := checkpoints - {oldestSeq};
      }
      stateLog.AdvanceWatermarks(seqNum);
    }

    /** The search loop of createCheckpoint. */
    method OldestCheckpoint(seqNum: nat) returns (oldestSeq: nat)
      ensures oldestSeq == Smallest({seqNum} + checkpoints.Keys)
    {
      oldestSeq := seqNum;
      var pending := checkpoints.Keys;
      while pending != {}
        invariant pending <= checkpoints.Keys
        invariant oldestSeq in {seqNum} + checkpoints.Keys
        invariant oldestSeq <= seqNum && forall s | s in checkpoints && s !in pending :: oldestSeq <= s
      {
        var s :| s in pending;
        if s < oldestSeq {
          oldestSeq := s;
        }
        pending := pending - {s};
      }
    }

    method HandleViewChange(msg: Message) returns (sent: seq<Message>)
      requires Valid() && msg.ViewChangeNet?
      modifies this, viewChangeManager
      ensures Valid() && stateLog.states == old(stateLog.states)
      ensures EngineRules.HandleViewChange(config, old(Model()), msg, Outcome(Model(), sent, []))
    {
      var vote := msg.viewChange;
      if vote.newView <= view {
        return [];
      }
      var hasQuorum := viewChangeManager.HandleViewChange(vote);
      sent := [];
      if hasQuorum {
        var newPrimaryIdx := vote.newView % |config.validators|;
        var newPrimaryID := config.validators[newPrimaryIdx];
        if newPrimaryID == config.nodeId {
          sent := BroadcastNewView(vote.newView);
        }
      }
    }

    method BroadcastNewView(newView: nat) returns (sent: seq<Message>)
      requires Valid() && |viewChangeManager.Model().Table(newView)| >= viewChangeManager.quorumSize
      modifies `view, viewChangeManager
      ensures Valid() && stateLog.states == old(stateLog.states)
      ensures EngineRules.BroadcastNewView(config, old(Model()), newView, Outcome(Model(), sent, []))
    {
      var built := viewChangeManager.CreateNewViewMsg(newView);
      if built.None? {
        return [];
      }
      sent := [NewViewNet(newView, sequenceNum, config.nodeId, built.value)];
      var accepted := viewChangeManager.HandleNewView(built.value);
      if accepted {
        view := newView;
      }
    }

    method HandleNewView(msg: Message) returns (sent: seq<Message>)
      requires Valid() && msg.NewViewNet?
      modifies `view, stateLog, stateLog.states.Values, viewChangeManager
      ensures Valid() && fresh(stateLog.states.Values - old(stateLog.states.Values))
      ensures Outcome(Model(), sent, []) == EngineRules.HandleNewView(config, old(Model()), msg)
    {
      var newViewMsg := msg.newView;
      if newViewMsg.view <= view {
        return [];
      }
      var expectedPrimaryIdx := newViewMsg.view % |config.validators|;
      if newViewMsg.newPrimaryId != config.validators[expectedPrimaryIdx] {
        return [];
      }
      var accepted := viewChangeManager.HandleNewView(newViewMsg);
      sent := [];
      if accepted {
        view := newViewMsg.view;
        sent := ReprocessAll(newViewMsg.prePrepares, newViewMsg.view);
      }
    }

    /** The loop of handleNewView over the re-proposals. */
    method ReprocessAll(prePrepares: seq<PrePrepareMsg>, newView: nat) returns (sent: seq<Message>)
      requires Valid()
      modifies stateLog, stateLog.states.Values
      ensures Valid() && fresh(stateLog.states.Values - old(stateLog.states.Values))
      ensures Model() == old(Model()).(log := Reprocess(old(Model()).log, prePrepares, newView))
      ensures sent == ReprocessSends(config, prePrepares, newView)
    {
      sent := [];
      ghost var before := stateLog.Model();
      for i := 0 to |prePrepares|
        modifies stateLog, stateLog.states.Values
        invariant stateLog.Valid() && fresh(stateLog.states.Values - old(stateLog.states.Values))
        invariant stateLog.Model() == Reprocess(before, prePrepares[..i], newView)
        invariant sent == ReprocessSends(config, prePrepares[..i], newView)
      {
        var prepare := ReprocessPrePrepare(prePrepares[i], newView);
        sent := sent + prepare;
        ReprocessNext(config, before, prePrepares, newView, i);
      }
      assert prePrepares[..|prePrepares|] == prePrepares;
    }

    method ReprocessPrePrepare(prePrepare: PrePrepareMsg, newView: nat) returns (sent: seq<Message>)
      requires stateLog.Valid()
      modifies stateLog, stateLog.states.Values
      ensures stateLog.Valid() && fresh(stateLog.states.Values - old(stateLog.states.Values))
      ensures var pp, log := prePrepare.(view := newView), old(stateLog.Model());
              stateLog.Model() == log.Put(log.Fetch(newView, pp.seqNum).WithPrePrepare(pp))
      ensures sent == ReprocessSends(config, [prePrepare], newView)
    {
      var pp := prePrepare.(view := newView);
      Install(newView, pp.seqNum, pp, None);
      var prepareMsg := PrepareMsg(newView, pp.seqNum, pp.digest, config.nodeId);
      sent := [PrepareNet(newView, pp.seqNum, pp.digest, config.nodeId, prepareMsg)];
    }

    /** The view-change timer fired. */
    method StartViewChange() returns (sent: seq<Message>)
      requires Valid()
      modifies viewChangeManager
      ensures Valid()
      ensures EngineRules.StartViewChange(config, old(Model()), Outcome(Model(), sent, []))
    {
      var newView := view + 1;
      var lastSeqNum := sequenceNum;
      var cps := CollectCheckpoints();
      var preparedSet := CollectPreparedCertificates();
      sent := viewChangeManager.StartViewChange(newView, lastSeqNum, cps, preparedSet);
    }

    method CollectCheckpoints() returns (cps: seq<Checkpoint>)
      ensures ListsCheckpoints(cps, checkpoints, config.nodeId)
    {
      cps := [];
      var pending := checkpoints.Keys;
      while pending != {}
        invariant pending <= checkpoints.Keys
        invariant |cps| + |pending| == |checkpoints|
        invariant forall i, j | 0 <= i < j < |cps| :: cps[i].seqNum != cps[j].seqNum
        invariant forall c <- cps :: c.seqNum in checkpoints.Keys - pending && checkpoints[c.seqNum] == c.digest
                                     && c.nodeId == config.nodeId
      {
        var s :| s in pending;
        cps := cps + [Checkpoint(s, checkpoints[s], config.nodeId)];
        pending := pending - {s};
      }
    }

    method CollectPreparedCertificates() returns (certs: seq<PreparedCert>)
      requires Valid()
      ensures IsPreparedSet(view, stateLog.Model(), config.QuorumSize(), certs, stateLog.highWaterMark + 1)
    {
      var quorum := config.QuorumSize();
      certs := [];
      ghost var log := stateLog.Model();
      var seqNum := stateLog.lowWaterMark + 1;
      while seqNum <= stateLog.highWaterMark
        invariant seqNum > stateLog.lowWaterMark
        invariant seqNum <= stateLog.highWaterMark + 1 || certs == []
        invariant IsPreparedSet(view, log, quorum, certs, seqNum)
      {
        var cert := Certify(seqNum, quorum);
        if cert.Some? {
          AddCert(view, log, quorum, certs, seqNum, cert.value);
          certs := certs + [cert.value];
        } else {
          SkipCert(view, log, quorum, certs, seqNum);
        }
        seqNum := seqNum + 1;
      }
    }

    /** One round of the loop of collectPreparedCertificates. */
    method Certify(seqNum: nat, quorum: nat) returns (cert: Option<PreparedCert>)
      requires Valid() && stateLog.lowWaterMark < seqNum <= stateLog.highWaterMark
      ensures cert.Some? <==> Reportable(stateLog.Model(), quorum, seqNum)
      ensures cert.Some? ==> cert.value.prePrepare.seqNum == seqNum && IsCertOf(view, stateLog.Model(), cert.value)
    {
      var state := stateLog.GetExistingState(seqNum);
      if state == null {
        return None;
      }
      var prepared := state.IsPrepared(quorum);
      if prepared && !state.executed && state.prePrepareMsg.Some? {
        var prepares := CopyPrepares(state);
        var pp := state.prePrepareMsg.value;
        return Some(PreparedCert(PrePrepareMsg(view, seqNum, pp.digest, state.block, pp.primaryId), prepares));
      }
      return None;
    }

    /** The map may be iterated in any order. */
    method CopyPrepares(state: State) returns (prepares: seq<PrepareMsg>)
      ensures ListsPrepares(prepares, state.prepareMsgs)
    {
      prepares := [];
      var pending := state.prepareMsgs.Keys;
      while pending != {}
        invariant pending <= state.prepareMsgs.Keys
        invariant |prepares| + |pending| == |state.prepareMsgs|
        invariant forall p <- prepares :: p in state.prepareMsgs.Values
        invariant forall id | id in state.prepareMsgs && id !in pending :: state.prepareMsgs[id] in prepares
      {
        var id :| id in pending;
        prepares := prepares + [state.prepareMsgs[id]];
        pending := pending - {id};
      }
    }
  }

  lemma ReprocessNext(cfg: Config, log: Log, pps: seq<PrePrepareMsg>, view: nat, i: nat)
    requires i < |pps|
    ensures var before, pp := Reprocess(log, pps[..i], view), pps[i].(view := view);
            Reprocess(log, pps[..i + 1], view) == before.Put(before.Fetch(view, pp.seqNum).WithPrePrepare(pp))
    ensures ReprocessSends(cfg, pps[..i + 1], view) ==
            ReprocessSends(cfg, pps[..i], view) + ReprocessSends(cfg, [pps[i]], view)
  {
    assert pps[..i + 1][..i] == pps[..i];
  }

  lemma SkipCert(view: nat, log: Log, quorum: nat, certs: seq<PreparedCert>, seqNum: nat)
    requires IsPreparedSet(view, log, quorum, certs, seqNum) && !Reportable(log, quorum, seqNum)
    ensures IsPreparedSet(view, log, quorum, certs, seqNum + 1)
  {
  }

  lemma AddCert(view: nat, log: Log, quorum: nat, certs: seq<PreparedCert>, seqNum: nat, cert: PreparedCert)
    requires IsPreparedSet(view, log, quorum, certs, seqNum)
    requires cert.prePrepare.seqNum == seqNum && Reportable(log, quorum, seqNum) && IsCertOf(view, log, cert)
    ensures IsPreparedSet(view, log, quorum, certs + [cert], seqNum + 1)
  {
    var all := certs + [cert];
    assert cert in all;
    forall s: nat | s < seqNum + 1 && Reportable(log, quorum, s)
      ensures exists c <- all :: c.prePrepare.seqNum == s
    {
      if s < seqNum {
        var c :| c in certs && c.prePrepare.seqNum == s;
        assert c in all;
      }
    }
  }
}
