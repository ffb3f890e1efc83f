/** Where the blocks, the history and the application hash of a node come from, in every run of one node, whatever
    messages reach it. */
module Provenance {
  import opened Types
  import opened Messages
  import opened StateLogs
  import opened EngineRules
  import opened NodeRuns
  import opened TurnLaws

  // ----- Every state under its own number -----

  lemma CommitKeepsKeyed(cfg: Config, e: Engine, ev: Event, out: Outcome)
    requires cfg.Valid() && Keyed(e.log) && Next(cfg, e, ev, out) && ev.Deliver? && ev.msg.CommitNet?
    ensures Keyed(out.engine.log)
  {
    if Executes(cfg, e, ev) {
      ExecutionTurn(cfg, e, ev, out);
    } else {
      CommitTurn(cfg, e, ev, out);
    }
  }

  lemma TurnKeepsKeyed(cfg: Config, e: Engine, ev: Event, out: Outcome)
    requires cfg.Valid() && Keyed(e.log) && Next(cfg, e, ev, out)
    ensures Keyed(out.engine.log)
  {
    if ev.Deliver? && ev.msg.CommitNet? {
      CommitKeepsKeyed(cfg, e, ev, out);
    } else if ev.Deliver? && ev.msg.NewViewNet? {
      ReprocessAt(e.log, ev.msg.newView.prePrepares, ev.msg.newView.view, 0);
    }
  }

  lemma {:induction false} KeyedInEveryRun(cfg: Config, nodes: seq<Node>, turns: seq<Turn>, i: nat)
    requires cfg.Valid() && IsRun(cfg, nodes, turns) && i < |nodes|
    ensures Keyed(nodes[i].engine.log)
  {
    if i > 0 {
      KeyedInEveryRun(cfg, nodes, turns, i - 1);
      StepKeepsKeyed(cfg, nodes, turns, i - 1);
    }
  }

  lemma StepKeepsKeyed(cfg: Config, nodes: seq<Node>, turns: seq<Turn>, i: nat)
    requires cfg.Valid() && IsRun(cfg, nodes, turns) && i < |turns| && Keyed(nodes[i].engine.log)
    ensures Keyed(nodes[i + 1].engine.log)
  {
    TurnKeepsKeyed(cfg, nodes[i].engine, turns[i].ev, turns[i].out);
  }

  // ----- Blocks -----

  /** The node itself built this block of what PrepareProposal answered, and proposed it. */
  ghost predicate ProposedIt(cfg: Config, e: Engine, t: Turn, s: nat, b: Block)
    requires cfg.Valid()
  {
    && t.ev.Request? && cfg.validators[e.view % |cfg.validators|] == cfg.nodeId
    && s == b.height && e.log.low < s <= e.log.high
    && IsNextBlock(cfg, e, b.txs, b)
    && t.out.sent == [PrePrepareNet(e.view, s, b.hash, cfg.nodeId,
                                    PrePrepareMsg(e.view, s, b.hash, Some(b), cfg.nodeId))]
    && exists txs :: HandsOver(t.ev.op, t.ev.reaped, txs) && t.ev.arrange(txs) == Some(b.txs)
  }

  /** The primary of the node's view sent this block for this view, and the application accepted it. */
  ghost predicate AcceptedIt(cfg: Config, e: Engine, t: Turn, s: nat, b: Block)
    requires cfg.Valid()
  {
    && t.ev.Deliver? && t.ev.msg.PrePrepareNet? && t.ev.verdict == Accepted
    && t.ev.msg.nodeId == cfg.validators[e.view % |cfg.validators|] && t.ev.msg.view == e.view
    && t.ev.msg.seqNum == s && e.log.low < s <= e.log.high
    && t.ev.msg.prePrepare.block == Some(b)
  }

  /** The node moved to a later view with a NEW-VIEW that re-proposes this block. */
  ghost predicate AdoptedIt(e: Engine, t: Turn, s: nat, b: Block) {
    && t.ev.Deliver? && t.ev.msg.NewViewNet? && t.out.engine.view == t.ev.msg.newView.view > e.view
    && exists pp <- t.ev.msg.newView.prePrepares :: pp.seqNum == s && pp.block == Some(b)
  }

  ghost predicate Brings(cfg: Config, e: Engine, t: Turn, s: nat, b: Block)
    requires cfg.Valid()
  {
    ProposedIt(cfg, e, t, s, b) || AcceptedIt(cfg, e, t, s, b) || AdoptedIt(e, t, s, b)
  }

  ghost predicate Holds(log: Log, s: nat, b: Block) {
    s in log.states && log.states[s].block == Some(b)
  }

  lemma ProposalIsOwn(cfg: Config, e: Engine, t: Turn)
    requires cfg.Valid() && Keyed(e.log) && Next(cfg, e, t.ev, t.out) && t.ev.Request? && t.out.sent != []
    ensures t.out.sent[0].PrePrepareNet? && t.out.sent[0].prePrepare.block.Some?
    ensures ProposedIt(cfg, e, t, e.sequenceNum + 1, t.out.sent[0].prePrepare.block.value)
  {
    var txs := TxsToPropose(t.ev.op, t.ev.reaped);
    assert HandsOver(t.ev.op, t.ev.reaped, txs);
    RequestTurn(cfg, e, t.ev, t.out, txs);
    ProposalTurn(cfg, e, t.ev, t.out, txs);
  }

  lemma RequestBrings(cfg: Config, e: Engine, t: Turn, s: nat, b: Block)
    requires cfg.Valid() && Keyed(e.log) && Next(cfg, e, t.ev, t.out) && t.ev.Request?
    requires Holds(t.out.engine.log, s, b)
    ensures Holds(e.log, s, b) || ProposedIt(cfg, e, t, s, b)
  {
    var txs := TxsToPropose(t.ev.op, t.ev.reaped);
    assert HandsOver(t.ev.op, t.ev.reaped, txs);
    RequestTurn(cfg, e, t.ev, t.out, txs);
    if t.out.sent != [] {
      ProposalTurn(cfg, e, t.ev, t.out, txs);
      ProposalIsOwn(cfg, e, t);
    }
  }

  lemma CommitBringsNothing(cfg: Config, e: Engine, t: Turn, s: nat, b: Block)
    requires cfg.Valid() && Keyed(e.log) && Next(cfg, e, t.ev, t.out) && t.ev.Deliver? && t.ev.msg.CommitNet?
    requires Holds(t.out.engine.log, s, b)
    ensures Holds(e.log, s, b)
  {
    CommitTurn(cfg, e, t.ev, t.out);
    if Executes(cfg, e, t.ev) {
      ExecutionTurn(cfg, e, t.ev, t.out);
    }
  }

  lemma {:induction false} LastForExists(pps: seq<PrePrepareMsg>, s: nat) returns (k: nat)
    requires exists pp <- pps :: pp.seqNum == s
    ensures LastFor(pps, s, k)
  {
    var init, last := pps[..|pps| - 1], pps[|pps| - 1];
    if last.seqNum == s {
      k := |pps| - 1;
    } else {
      assert pps == init + [last];
      k := LastForExists(init, s);
    }
  }

  lemma NewViewBrings(cfg: Config, e: Engine, t: Turn, s: nat, b: Block)
    requires cfg.Valid() && Keyed(e.log) && Next(cfg, e, t.ev, t.out) && t.ev.Deliver? && t.ev.msg.NewViewNet?
    requires Holds(t.out.engine.log, s, b)
    ensures Holds(e.log, s, b) || AdoptedIt(e, t, s, b)
  {
    NewViewTurn(cfg, e, t.ev, t.out);
    if t.out.engine != e {
      InstalledAt(cfg, e, t.ev, t.out, s);
      var pps := t.ev.msg.newView.prePrepares;
      if exists pp <- pps :: pp.seqNum == s {
        var k := LastForExists(pps, s);
        assert pps[k] in pps;
      }
    }
  }

  /** A block appears in a log in one of three ways. */
  lemma TurnBrings(cfg: Config, e: Engine, t: Turn, s: nat, b: Block)
    requires cfg.Valid() && Keyed(e.log) && Next(cfg, e, t.ev, t.out) && Holds(t.out.engine.log, s, b)
    ensures Holds(e.log, s, b) || Brings(cfg, e, t, s, b)
  {
    match t.ev
    case Request(_, _, _) => RequestBrings(cfg, e, t, s, b);
    case Timeout => TimeoutTurn(cfg, e, t.ev, t.out);
    case Deliver(msg, _, _) =>
      match msg
      case PrePrepareNet(_, _, _, _, _) => PrePrepareTurn(cfg, e, t.ev, t.out);
      case PrepareNet(_, _, _, _, _) => PrepareTurn(cfg, e, t.ev, t.out);
      case CommitNet(_, _, _, _, _) => CommitBringsNothing(cfg, e, t, s, b);
      case ViewChangeNet(_, _, _, _) => ViewChangeTurn(cfg, e, t.ev, t.out);
      case NewViewNet(_, _, _, _) => NewViewBrings(cfg, e, t, s, b);
  }

  /** The block was brought to this number by an earlier turn. */
  ghost predicate Brought(cfg: Config, nodes: seq<Node>, turns: seq<Turn>, i: nat, s: nat, b: Block)
    requires cfg.Valid() && |nodes| == |turns| + 1 && i <= |turns|
  {
    exists j {:trigger turns[j]} | 0 <= j < i :: Brings(cfg, nodes[j].engine, turns[j], s, b)
  }

  lemma StepBrings(cfg: Config, nodes: seq<Node>, turns: seq<Turn>, i: nat, s: nat, b: Block)
    requires cfg.Valid() && IsRun(cfg, nodes, turns) && i < |turns| && Holds(nodes[i + 1].engine.log, s, b)
    ensures Holds(nodes[i].engine.log, s, b) || Brings(cfg, nodes[i].engine, turns[i], s, b)
  {
    KeyedInEveryRun(cfg, nodes, turns, i);
    TurnBrings(cfg, nodes[i].engine, turns[i], s, b);
  }

  /** Every block a node holds under a number was proposed by the node itself, accepted by its application when the
      primary of its view sent it, or re-proposed by a NEW-VIEW it moved with. */
  lemma {:induction false} HeldWasBrought(cfg: Config, nodes: seq<Node>, turns: seq<Turn>, i: nat, s: nat, b: Block)
    requires cfg.Valid() && IsRun(cfg, nodes, turns) && i < |nodes| && Holds(nodes[i].engine.log, s, b)
    ensures Brought(cfg, nodes, turns, i, s, b)
  {
    if i > 0 {
      StepBrings(cfg, nodes, turns, i - 1, s, b);
      if Holds(nodes[i - 1].engine.log, s, b) {
        HeldWasBrought(cfg, nodes, turns, i - 1, s, b);
      }
    }
  }

  // ----- Executions -----

  /** The turn executed `x`: a COMMIT was delivered and the application finalised and committed the block that the node
      held for that number. */
  ghost predicate Performs(n: Node, t: Turn, x: Execution) {
    && t.ev.Deliver? && t.ev.msg.CommitNet? && t.ev.msg.view == n.engine.view && t.ev.msg.seqNum == x.seqNum
    && t.ev.reply.Done? && t.out.executed == [x]
    && Holds(n.engine.log, x.seqNum, x.block) && !n.engine.log.states[x.seqNum].executed
  }

  lemma ExecutingTurn(cfg: Config, n: Node, t: Turn)
    requires cfg.Valid() && Keyed(n.engine.log) && Next(cfg, n.engine, t.ev, t.out) && t.out.executed != []
    ensures Performs(n, t, t.out.executed[0])
  {
    OnlyDoneExecutes(cfg, n.engine, t.ev, t.out);
    CommitTurn(cfg, n.engine, t.ev, t.out);
    ExecutionTurn(cfg, n.engine, t.ev, t.out);
  }

  /** The last turn before `i` that executed anything, if there is one, gave the application hash `appHash`. */
  ghost predicate LastAnswered(turns: seq<Turn>, i: nat, appHash: Bytes)
    requires i <= |turns|
  {
    if i == 0 then appHash == []
    else if turns[i - 1].out.executed == [] then LastAnswered(turns, i - 1, appHash)
    else turns[i - 1].ev.Deliver? && turns[i - 1].ev.reply == Done(appHash)
  }

  ghost function Blocks(history: seq<Execution>): seq<Block> {
    seq(|history|, i requires 0 <= i < |history| => history[i].block)
  }

  /** One more turn. */
  lemma StepRecords(cfg: Config, nodes: seq<Node>, turns: seq<Turn>, i: nat)
    requires cfg.Valid() && IsRun(cfg, nodes, turns) && i < |turns|
    ensures nodes[i + 1].history == nodes[i].history + turns[i].out.executed && |turns[i].out.executed| <= 1
    ensures turns[i].out.executed == [] ==>
              && nodes[i + 1].engine.committed == nodes[i].engine.committed
              && nodes[i + 1].engine.lastAppHash == nodes[i].engine.lastAppHash
    ensures turns[i].out.executed != [] ==>
              && Performs(nodes[i], turns[i], turns[i].out.executed[0])
              && nodes[i + 1].engine.committed == nodes[i].engine.committed + [turns[i].out.executed[0].block]
              && turns[i].ev.reply == Done(nodes[i + 1].engine.lastAppHash)
  {
    KeyedInEveryRun(cfg, nodes, turns, i);
    OnlyDoneExecutes(cfg, nodes[i].engine, turns[i].ev, turns[i].out);
    if turns[i].out.executed != [] {
      ExecutingTurn(cfg, nodes[i], turns[i]);
    }
  }

  lemma StepGrowsChain(cfg: Config, nodes: seq<Node>, turns: seq<Turn>, i: nat)
    requires cfg.Valid() && IsRun(cfg, nodes, turns) && i < |turns|
    requires nodes[i].engine.committed == Blocks(nodes[i].history)
    requires LastAnswered(turns, i, nodes[i].engine.lastAppHash)
    ensures nodes[i + 1].engine.committed == Blocks(nodes[i + 1].history)
    ensures LastAnswered(turns, i + 1, nodes[i + 1].engine.lastAppHash)
  {
    StepRecords(cfg, nodes, turns, i);
    if turns[i].out.executed != [] {
      BlocksNext(nodes[i].history, turns[i].out.executed[0]);
      assert turns[i].out.executed == [turns[i].out.executed[0]];
    } else {
      assert nodes[i].history + [] == nodes[i].history;
    }
  }

  lemma BlocksNext(history: seq<Execution>, x: Execution)
    ensures Blocks(history + [x]) == Blocks(history) + [x.block]
  {
  }

  /** In every run, the chain is the list of the blocks executed, in order, and the application hash is the one answered
      in the last turn that executed a block, or empty if there is none. */
  lemma {:induction false} ChainIsHistory(cfg: Config, nodes: seq<Node>, turns: seq<Turn>, i: nat)
    requires cfg.Valid() && IsRun(cfg, nodes, turns) && i < |nodes|
    ensures nodes[i].engine.committed == Blocks(nodes[i].history)
    ensures LastAnswered(turns, i, nodes[i].engine.lastAppHash)
  {
    if i > 0 {
      ChainIsHistory(cfg, nodes, turns, i - 1);
      StepGrowsChain(cfg, nodes, turns, i - 1);
    } else {
      StartsEmpty(cfg, nodes, turns);
    }
  }

  lemma StartsEmpty(cfg: Config, nodes: seq<Node>, turns: seq<Turn>)
    requires cfg.Valid() && IsRun(cfg, nodes, turns)
    ensures nodes[0].history == [] && nodes[0].engine.committed == [] && nodes[0].engine.lastAppHash == []
  {
  }

  /** Every entry of the history comes from a turn in which the application finalised and committed that very block, and
      the block had been brought to that number by a still earlier turn. */
  lemma {:induction false} ExecutedWasBrought(cfg: Config, nodes: seq<Node>, turns: seq<Turn>, i: nat, x: Execution)
    requires cfg.Valid() && IsRun(cfg, nodes, turns) && i < |nodes| && x in nodes[i].history
    ensures exists j {:trigger turns[j]} | 0 <= j < i ::
              Performs(nodes[j], turns[j], x) && Brought(cfg, nodes, turns, j, x.seqNum, x.block)
  {
    if i > 0 {
      StepRecords(cfg, nodes, turns, i - 1);
      if x in nodes[i - 1].history {
        ExecutedWasBrought(cfg, nodes, turns, i - 1, x);
      } else {
        assert turns[i - 1].out.executed[0] == x;
        HeldWasBrought(cfg, nodes, turns, i - 1, x.seqNum, x.block);
      }
    }
  }
}
