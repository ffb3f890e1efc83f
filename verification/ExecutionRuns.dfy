/** Executions, watermarks and checkpoints over every run of one node in which re-proposals stay in the window. */
module ExecutionRuns {
  import opened Types
  import opened Messages
  import opened StateLogs
  import opened EngineRules
  import opened NodeRuns
  import Quorum

  /** The executions at which a checkpoint was taken, in order. */
  ghost function Taken(interval: nat, history: seq<Execution>): seq<Execution>
    requires interval > 0
  {
    if history == [] then [] else
      var init, x := history[..|history| - 1], history[|history| - 1];
      Taken(interval, init) + if x.seqNum % interval == 0 then [x] else []
  }

  ghost predicate Ascending(xs: seq<Execution>) {
    forall i, j | 0 <= i < j < |xs| :: xs[i].seqNum < xs[j].seqNum
  }

  ghost function LastThree(xs: seq<Execution>): seq<Execution> {
    if |xs| <= 3 then xs else xs[|xs| - 3..]
  }

  ghost predicate Distinct(history: seq<Execution>) {
    forall i, j | 0 <= i < j < |history| :: history[i].seqNum != history[j].seqNum
  }

  ghost function ExecutedNumbers(history: seq<Execution>): set<nat> {
    set x <- history :: x.seqNum
  }

  // ----- The invariants -----

  /** A tracked state holds a quorum of prepares once prepared, and of both votes once committed or executed. */
  ghost predicate StateOk(cfg: Config, st: SeqState) {
    && st.phase != Phase.Idle && st.prePrepare.Some? && st.block == st.prePrepare.value.block
    && (st.phase.Rank() >= Prepared.Rank() ==> |st.prepares| >= cfg.QuorumSize())
    && (st.phase == Committed ==> |st.commits| >= cfg.QuorumSize())
    && (st.executed ==> |st.prepares| >= cfg.QuorumSize() && |st.commits| >= cfg.QuorumSize())
  }

  /** Only executed numbers are marked executed, and no executed number can be executed again as things stand. */
  ghost predicate MemoryOk(cfg: Config, log: Log, history: seq<Execution>) {
    && (forall s <- log.states :: log.states[s].seqNum == s && StateOk(cfg, log.states[s]))
    && (forall s <- log.states :: log.states[s].executed ==> s in ExecutedNumbers(history))
    && (forall s <- ExecutedNumbers(history) :: Remembers(log, s))
  }

  /** An executed number is tracked as executed, or lies at or below the low-water mark and has no block to execute. */
  ghost predicate Remembers(log: Log, s: nat) {
    WasExecuted(log, s) || (s <= log.low && (s in log.states ==> log.states[s].block.None?))
  }

  ghost predicate WasExecuted(log: Log, seqNum: nat) {
    seqNum in log.states && log.states[seqNum].executed
  }

  ghost predicate CommittedOk(committed: seq<Block>, history: seq<Execution>) {
    && |committed| == |history|
    && forall i | 0 <= i < |history| :: committed[i] == history[i].block
  }

  ghost predicate OnceInv(cfg: Config, n: Node) {
    && MemoryOk(cfg, n.engine.log, n.history)
    && Distinct(n.history)
    && CommittedOk(n.engine.committed, n.history)
  }

  ghost predicate WindowOk(cfg: Config, log: Log) {
    && log.window == cfg.windowSize && log.high == log.low + log.window
    && forall s <- log.states :: log.InWindow(s)
  }

  /** `checkpoints` holds the hash of each of these blocks and nothing else. */
  ghost predicate Holds(checkpoints: map<nat, Bytes>, blocks: seq<Execution>) {
    && checkpoints.Keys == ExecutedNumbers(blocks)
    && forall x <- blocks :: checkpoints[x.seqNum] == x.block.hash
  }

  /** `low` is the last checkpoint taken and `checkpoints` the last three. */
  ghost predicate RecentOk(low: nat, checkpoints: map<nat, Bytes>, taken: seq<Execution>) {
    && Ascending(taken)
    && low == (if taken == [] then 0 else taken[|taken| - 1].seqNum)
    && Holds(checkpoints, LastThree(taken))
  }

  ghost predicate CheckpointsOk(cfg: Config, low: nat, checkpoints: map<nat, Bytes>, history: seq<Execution>)
    requires cfg.Valid()
  {
    RecentOk(low, checkpoints, Taken(cfg.checkpointInterval, history))
  }

  ghost predicate WindowInv(cfg: Config, n: Node)
    requires cfg.Valid()
  {
    && WindowOk(cfg, n.engine.log)
    && CheckpointsOk(cfg, n.engine.log.low, n.engine.checkpoints, n.history)
  }

  /** A turn keeps what is claimed: the first invariant, and the second as well where it held. */
  ghost predicate Kept(cfg: Config, n: Node, n': Node)
    requires cfg.Valid()
  {
    OnceInv(cfg, n') && (WindowInv(cfg, n) ==> WindowInv(cfg, n'))
  }

  // ----- Steps that only touch tracked states -----

  lemma PutKeeps(cfg: Config, log: Log, history: seq<Execution>, st: SeqState)
    requires MemoryOk(cfg, log, history) && StateOk(cfg, st)
    requires st.executed == WasExecuted(log, st.seqNum)
    requires st.seqNum in ExecutedNumbers(history) && !st.executed ==> st.seqNum <= log.low && st.block.None?
    ensures MemoryOk(cfg, log.Put(st), history)
    ensures WindowOk(cfg, log) && log.InWindow(st.seqNum) ==> WindowOk(cfg, log.Put(st))
  {
    var log' := log.Put(st);
    forall s <- ExecutedNumbers(history) ensures Remembers(log', s) {
      assert Remembers(log, s);
    }
    forall s <- log'.states
      ensures log'.states[s].seqNum == s && StateOk(cfg, log'.states[s])
      ensures log'.states[s].executed ==> s in ExecutedNumbers(history)
    {
      if s == st.seqNum && st.executed {
        assert log.states[s].executed;
      }
    }
  }

  lemma RememberedState(cfg: Config, log: Log, history: seq<Execution>, s: nat)
    requires MemoryOk(cfg, log, history) && s in log.states
    ensures s in ExecutedNumbers(history) && !log.states[s].executed ==> s <= log.low && log.states[s].block.None?
  {
    if s in ExecutedNumbers(history) {
      assert Remembers(log, s);
    }
  }

  lemma OnlyLogChanged(cfg: Config, n: Node, e': Engine)
    requires cfg.Valid() && OnceInv(cfg, n)
    requires e'.checkpoints == n.engine.checkpoints && e'.committed == n.engine.committed
    requires e'.log.low == n.engine.log.low && MemoryOk(cfg, e'.log, n.history)
    ensures OnceInv(cfg, Node(e', n.history))
    ensures WindowInv(cfg, n) && WindowOk(cfg, e'.log) ==> WindowInv(cfg, Node(e', n.history))
  {
  }

  /** The re-proposals give a block to a number. */
  ghost predicate Revives(pps: seq<PrePrepareMsg>, s: nat) {
    LastProposal(pps, s).Some? && LastProposal(pps, s).value.block.Some?
  }

  /** No re-proposal gives a block to an executed number that is no longer tracked as executed. */
  ghost predicate Harmless(log: Log, history: seq<Execution>, pps: seq<PrePrepareMsg>) {
    forall s <- ExecutedNumbers(history) :: !WasExecuted(log, s) ==> !Revives(pps, s)
  }

  lemma ReprocessKeepsMemory(cfg: Config, log: Log, history: seq<Execution>, pps: seq<PrePrepareMsg>, view: nat)
    requires MemoryOk(cfg, log, history) && Harmless(log, history, pps)
    ensures MemoryOk(cfg, Reprocess(log, pps, view), history)
  {
    var log' := Reprocess(log, pps, view);
    forall s <- log'.states
      ensures log'.states[s].seqNum == s && StateOk(cfg, log'.states[s])
      ensures log'.states[s].executed ==> s in ExecutedNumbers(history)
    {
      ReprocessedOk(cfg, log, history, pps, view, s);
    }
    forall s <- ExecutedNumbers(history) ensures Remembers(log', s) {
      ReprocessedRemembers(cfg, log, history, pps, view, s);
    }
  }

  lemma ReprocessedOk(cfg: Config, log: Log, history: seq<Execution>, pps: seq<PrePrepareMsg>, view: nat, s: nat)
    requires MemoryOk(cfg, log, history)
    ensures var log' := Reprocess(log, pps, view);
            s in log'.states ==>
              && log'.states[s].seqNum == s && StateOk(cfg, log'.states[s])
              && (log'.states[s].executed ==> s in ExecutedNumbers(history))
  {
    ReprocessAt(log, pps, view, s);
  }

  lemma ReprocessedRemembers(cfg: Config, log: Log, history: seq<Execution>, pps: seq<PrePrepareMsg>, view: nat,
                             s: nat)
    requires MemoryOk(cfg, log, history) && Harmless(log, history, pps) && s in ExecutedNumbers(history)
    ensures Remembers(Reprocess(log, pps, view), s)
  {
    ReprocessAt(log, pps, view, s);
    assert Remembers(log, s);
  }

  lemma ReprocessKeepsWindow(cfg: Config, log: Log, pps: seq<PrePrepareMsg>, view: nat)
    requires WindowOk(cfg, log) && Keyed(log) && forall pp <- pps :: log.InWindow(pp.seqNum)
    ensures WindowOk(cfg, Reprocess(log, pps, view))
  {
    var log' := Reprocess(log, pps, view);
    ReprocessAt(log, pps, view, 0);
    forall s <- log'.states ensures log'.InWindow(s) {
      ReprocessAt(log, pps, view, s);
    }
  }

  // ----- Execution -----

  lemma TakenNext(interval: nat, history: seq<Execution>, x: Execution)
    requires interval > 0
    ensures Taken(interval, history + [x]) ==
            Taken(interval, history) + if x.seqNum % interval == 0 then [x] else []
  {
    assert (history + [x])[..|history|] == history;
  }

  lemma ExecutedNext(history: seq<Execution>, x: Execution)
    ensures ExecutedNumbers(history + [x]) == ExecutedNumbers(history) + {x.seqNum}
  {
    assert x in history + [x];
    assert forall y <- history :: y in history + [x];
  }

  /** The execution of a tracked state, before any checkpoint. */
  lemma ExecuteKeeps(cfg: Config, n: Node, st: SeqState)
    requires OnceInv(cfg, n)
    requires st.seqNum in n.engine.log.states && StateOk(cfg, st.(executed := true))
    requires !WasExecuted(n.engine.log, st.seqNum) && st.block.Some?
    requires st.block == n.engine.log.states[st.seqNum].block
    ensures var x := Execution(st.seqNum, st.block.value);
            && MemoryOk(cfg, n.engine.log.Put(st.(executed := true)), n.history + [x])
            && Distinct(n.history + [x])
            && CommittedOk(n.engine.committed + [x.block], n.history + [x])
  {
    var x := Execution(st.seqNum, st.block.value);
    var log' := n.engine.log.Put(st.(executed := true));
    ExecutedNext(n.history, x);
    RememberedState(cfg, n.engine.log, n.history, st.seqNum);
    NewNumber(n.history, x);
    StillRemembers(n.engine.log, n.history, st, x);
  }

  lemma StillRemembers(log: Log, history: seq<Execution>, st: SeqState, x: Execution)
    requires (forall s <- ExecutedNumbers(history) :: Remembers(log, s)) && st.seqNum == x.seqNum
    ensures forall s <- ExecutedNumbers(history + [x]) :: Remembers(log.Put(st.(executed := true)), s)
  {
    ExecutedNext(history, x);
    forall s <- ExecutedNumbers(history + [x]) ensures Remembers(log.Put(st.(executed := true)), s) {
      if s != st.seqNum {
        assert Remembers(log, s);
      }
    }
  }

  lemma NewNumber(history: seq<Execution>, x: Execution)
    requires Distinct(history) && x.seqNum !in ExecutedNumbers(history)
    ensures Distinct(history + [x])
  {
    assert forall i | 0 <= i < |history| :: history[i] in history;
  }

  lemma AdvanceKeeps(cfg: Config, log: Log, history: seq<Execution>, seqNum: nat)
    requires MemoryOk(cfg, log, history)
    ensures MemoryOk(cfg, log.Advance(seqNum), history)
    ensures WindowOk(cfg, log) ==> WindowOk(cfg, log.Advance(seqNum))
    ensures seqNum > log.low ==> log.Advance(seqNum).low == seqNum
  {
  }

  lemma LastThreeNext(taken: seq<Execution>, x: Execution)
    ensures LastThree(taken + [x]) == (if |taken| < 3 then taken else LastThree(taken)[1..]) + [x]
  {
  }

  lemma HoldsMore(checkpoints: map<nat, Bytes>, blocks: seq<Execution>, x: Execution)
    requires Holds(checkpoints, blocks) && forall y <- blocks :: y.seqNum < x.seqNum
    ensures Holds(checkpoints[x.seqNum := x.block.hash], blocks + [x])
  {
    ExecutedNext(blocks, x);
  }

  lemma AscendingNext(xs: seq<Execution>, x: Execution)
    requires Ascending(xs) && (xs == [] || xs[|xs| - 1].seqNum < x.seqNum)
    ensures Ascending(xs + [x]) && forall y <- xs :: y.seqNum < x.seqNum
  {
  }

  lemma OldestFirst(blocks: seq<Execution>)
    requires Ascending(blocks) && blocks != []
    ensures forall y <- blocks :: blocks[0].seqNum <= y.seqNum
    ensures forall y <- blocks[1..] :: blocks[0].seqNum < y.seqNum && y in blocks
  {
  }

  lemma HoldsLess(checkpoints: map<nat, Bytes>, blocks: seq<Execution>)
    requires Ascending(blocks) && blocks != [] && Holds(checkpoints, blocks)
    ensures Holds(checkpoints - {blocks[0].seqNum}, blocks[1..])
  {
    OldestFirst(blocks);
    var later := blocks[1..];
    assert blocks == [blocks[0]] + later;
    assert ExecutedNumbers(blocks) == {blocks[0].seqNum} + ExecutedNumbers(later) by {
      assert forall y <- blocks :: y == blocks[0] || y in later;
    }
    assert blocks[0].seqNum !in ExecutedNumbers(later);
  }

  lemma SmallestIs(s: set<nat>, m: nat)
    requires m in s && forall x <- s :: m <= x
    ensures Smallest(s) == m
  {
  }

  /** Once a fourth checkpoint is in, pruning drops the oldest. */
  lemma PruneOldest(blocks: seq<Execution>, checkpoints: map<nat, Bytes>, seqNum: nat)
    requires |blocks| == 4 && Ascending(blocks) && Holds(checkpoints, blocks) && seqNum in checkpoints
    ensures Holds(Prune(checkpoints, seqNum), blocks[1..])
  {
    NumbersCount(blocks);
    OldestFirst(blocks);
    assert |checkpoints| == |checkpoints.Keys|;
    assert {seqNum} + checkpoints.Keys == checkpoints.Keys;
    assert blocks[0] in blocks;
    SmallestIs(checkpoints.Keys, blocks[0].seqNum);
    HoldsLess(checkpoints, blocks);
  }

  /** The new checkpoint enters and, past three, the oldest one leaves. */
  lemma EnterAndPrune(checkpoints: map<nat, Bytes>, three: seq<Execution>, x: Execution)
    requires |three| <= 3 && Ascending(three + [x]) && Holds(checkpoints, three)
    requires forall y <- three :: y.seqNum < x.seqNum
    ensures Holds(Prune(checkpoints[x.seqNum := x.block.hash], x.seqNum),
                  (if |three| < 3 then three else three[1..]) + [x])
  {
    var grown := checkpoints[x.seqNum := x.block.hash];
    HoldsMore(checkpoints, three, x);
    if |three| < 3 {
      SmallMap(grown, three + [x]);
    } else {
      PruneOldest(three + [x], grown, x.seqNum);
      assert (three + [x])[1..] == three[1..] + [x];
    }
  }

  lemma RecentNext(low: nat, checkpoints: map<nat, Bytes>, taken: seq<Execution>, x: Execution)
    requires RecentOk(low, checkpoints, taken) && x.seqNum > low
    ensures RecentOk(x.seqNum, Prune(checkpoints[x.seqNum := x.block.hash], x.seqNum), taken + [x])
  {
    LastThreeNext(taken, x);
    AscendingNext(taken, x);
    assert Ascending(LastThree(taken));
    AscendingNext(LastThree(taken), x);
    EnterAndPrune(checkpoints, LastThree(taken), x);
  }

  lemma SmallMap(checkpoints: map<nat, Bytes>, blocks: seq<Execution>)
    requires Holds(checkpoints, blocks) && Ascending(blocks) && |blocks| <= 3
    ensures |checkpoints| <= 3
  {
    NumbersCount(blocks);
    assert |checkpoints| == |checkpoints.Keys|;
  }

  lemma CheckpointKeeps(cfg: Config, low: nat, checkpoints: map<nat, Bytes>, history: seq<Execution>, x: Execution)
    requires cfg.Valid() && CheckpointsOk(cfg, low, checkpoints, history)
    requires x.seqNum > low && x.seqNum % cfg.checkpointInterval == 0
    ensures CheckpointsOk(cfg, x.seqNum, Prune(checkpoints[x.seqNum := x.block.hash], x.seqNum), history + [x])
  {
    TakenNext(cfg.checkpointInterval, history, x);
    RecentNext(low, checkpoints, Taken(cfg.checkpointInterval, history), x);
  }

  lemma {:induction false} NumbersCount(history: seq<Execution>)
    requires Distinct(history)
    ensures |ExecutedNumbers(history)| == |history|
  {
    if history == [] {
    } else {
      var init, x := history[..|history| - 1], history[|history| - 1];
      assert history == init + [x];
      NumbersCount(init);
      ExecutedNext(init, x);
    }
  }

  // ----- Turns and runs -----

  /** Re-proposals lie inside the window. The program does not check this. */
  ghost predicate ReproposalsInWindow(cfg: Config, n: Node, t: Turn)
    requires cfg.Valid()
  {
    Installs(cfg, n, t) ==> forall pp <- t.ev.msg.newView.prePrepares :: n.engine.log.InWindow(pp.seqNum)
  }

  /** The turn does not bring back an executed number. The program does not check this either. */
  ghost predicate KeepsMemory(cfg: Config, n: Node, t: Turn)
    requires cfg.Valid()
  {
    Installs(cfg, n, t) ==> Harmless(n.engine.log, n.history, t.ev.msg.newView.prePrepares)
  }

  ghost predicate AllInWindow(cfg: Config, nodes: seq<Node>, turns: seq<Turn>)
    requires cfg.Valid() && |nodes| == |turns| + 1
  {
    forall k {:trigger turns[k]} | 0 <= k < |turns| :: ReproposalsInWindow(cfg, nodes[k], turns[k])
  }

  ghost predicate AllKeepMemory(cfg: Config, nodes: seq<Node>, turns: seq<Turn>)
    requires cfg.Valid() && |nodes| == |turns| + 1
  {
    forall k {:trigger turns[k]} | 0 <= k < |turns| :: KeepsMemory(cfg, nodes[k], turns[k])
  }

  lemma InWindowKeepsMemory(cfg: Config, n: Node, t: Turn)
    requires cfg.Valid() && OnceInv(cfg, n) && ReproposalsInWindow(cfg, n, t)
    ensures KeepsMemory(cfg, n, t)
  {
  }

  /** The block is executed and recorded; what is left is the checkpoint, if one is due. */
  ghost predicate Recorded(cfg: Config, before: Node, done: Engine, x: Execution)
    requires cfg.Valid()
  {
    && MemoryOk(cfg, done.log, before.history + [x])
    && Distinct(before.history + [x])
    && CommittedOk(done.committed, before.history + [x])
    && (WindowInv(cfg, before) ==>
          && WindowOk(cfg, done.log)
          && CheckpointsOk(cfg, done.log.low, done.checkpoints, before.history)
          && done.log.low < x.seqNum)
  }

  lemma CheckpointTurn(cfg: Config, before: Node, done: Engine, x: Execution)
    requires cfg.Valid() && Recorded(cfg, before, done, x) && x.seqNum % cfg.checkpointInterval == 0
    ensures Kept(cfg, before, Node(CreateCheckpoint(done, x.seqNum), before.history + [x]))
  {
    var h := before.history + [x];
    assert h[|h| - 1] == x && PrevHash(done.committed) == x.block.hash;
    AdvanceKeeps(cfg, done.log, h, x.seqNum);
    if WindowInv(cfg, before) {
      CheckpointKeeps(cfg, done.log.low, done.checkpoints, before.history, x);
    }
  }

  lemma NoCheckpointTurn(cfg: Config, before: Node, done: Engine, x: Execution)
    requires cfg.Valid() && Recorded(cfg, before, done, x) && x.seqNum % cfg.checkpointInterval != 0
    ensures Kept(cfg, before, Node(done, before.history + [x]))
  {
    TakenNext(cfg.checkpointInterval, before.history, x);
    assert Taken(cfg.checkpointInterval, before.history) + [] == Taken(cfg.checkpointInterval, before.history);
  }

  lemma ExecuteBlockKeeps(cfg: Config, n: Node, st: SeqState, reply: Reply, out: Outcome)
    requires cfg.Valid() && OnceInv(cfg, n)
    requires st.seqNum in n.engine.log.states && StateOk(cfg, st) && StateOk(cfg, st.(executed := true))
    requires st.executed == WasExecuted(n.engine.log, st.seqNum)
    requires st.block == n.engine.log.states[st.seqNum].block
    requires out == ExecuteBlock(cfg, n.engine, st, reply)
    ensures Kept(cfg, n, Node(out.engine, n.history + out.executed))
  {
    if st.executed || st.block.None? || !reply.Done? {
      assert n.history + [] == n.history;
      OnlyFiled(cfg, n, st);
    } else {
      ExecutedKeeps(cfg, n, st, reply);
    }
  }

  /** The state takes its place in the log, and no block is executed. */
  lemma OnlyFiled(cfg: Config, n: Node, st: SeqState)
    requires cfg.Valid() && OnceInv(cfg, n)
    requires st.seqNum in n.engine.log.states && StateOk(cfg, st)
    requires st.executed == WasExecuted(n.engine.log, st.seqNum)
    requires st.block == n.engine.log.states[st.seqNum].block
    ensures Kept(cfg, n, Node(n.engine.(log := n.engine.log.Put(st)), n.history))
  {
    RememberedState(cfg, n.engine.log, n.history, st.seqNum);
    PutKeeps(cfg, n.engine.log, n.history, st);
    OnlyLogChanged(cfg, n, n.engine.(log := n.engine.log.Put(st)));
  }

  lemma ExecutedIsRecorded(cfg: Config, n: Node, st: SeqState, appHash: Bytes)
    requires cfg.Valid() && OnceInv(cfg, n)
    requires st.seqNum in n.engine.log.states && StateOk(cfg, st.(executed := true))
    requires !WasExecuted(n.engine.log, st.seqNum)
    requires st.block.Some? && st.block == n.engine.log.states[st.seqNum].block
    ensures Recorded(cfg, n, Executed(n.engine, st, appHash), Execution(st.seqNum, st.block.value))
  {
    ExecuteKeeps(cfg, n, st);
    if WindowInv(cfg, n) {
      ExecutedInWindow(cfg, n, st, appHash);
    }
  }

  lemma ExecutedInWindow(cfg: Config, n: Node, st: SeqState, appHash: Bytes)
    requires cfg.Valid() && WindowInv(cfg, n) && st.seqNum in n.engine.log.states && st.block.Some?
    ensures var done := Executed(n.engine, st, appHash);
            && WindowOk(cfg, done.log) && done.log.low < st.seqNum
            && CheckpointsOk(cfg, done.log.low, done.checkpoints, n.history)
  {
  }

  /** The block is executed. */
  lemma ExecutedKeeps(cfg: Config, n: Node, st: SeqState, reply: Reply)
    requires cfg.Valid() && OnceInv(cfg, n) && reply.Done?
    requires st.seqNum in n.engine.log.states && StateOk(cfg, st.(executed := true))
    requires !st.executed && !WasExecuted(n.engine.log, st.seqNum)
    requires st.block.Some? && st.block == n.engine.log.states[st.seqNum].block
    ensures var out := ExecuteBlock(cfg, n.engine, st, reply);
            Kept(cfg, n, Node(out.engine, n.history + out.executed))
  {
    var x, done := Execution(st.seqNum, st.block.value), Executed(n.engine, st, reply.appHash);
    ExecutedIsRecorded(cfg, n, st, reply.appHash);
    if st.seqNum % cfg.checkpointInterval == 0 {
      CheckpointTurn(cfg, n, done, x);
    } else {
      NoCheckpointTurn(cfg, n, done, x);
    }
  }

  lemma PrepareKeeps(cfg: Config, n: Node, msg: Message, out: Outcome)
    requires cfg.Valid() && OnceInv(cfg, n) && msg.PrepareNet? && out == HandlePrepare(cfg, n.engine, msg)
    ensures Kept(cfg, n, Node(out.engine, n.history))
  {
    if msg.view == n.engine.view && msg.seqNum in n.engine.log.states {
      var st := out.engine.log.states[msg.seqNum];
      PutKeeps(cfg, n.engine.log, n.history, st);
      OnlyLogChanged(cfg, n, out.engine);
    }
  }

  lemma CommitKeeps(cfg: Config, n: Node, msg: Message, reply: Reply, out: Outcome)
    requires cfg.Valid() && OnceInv(cfg, n) && msg.CommitNet? && out == HandleCommit(cfg, n.engine, msg, reply)
    ensures Kept(cfg, n, Node(out.engine, n.history + out.executed))
  {
    assert n.history + [] == n.history;
    if msg.view == n.engine.view && msg.seqNum in n.engine.log.states {
      var st := n.engine.log.states[msg.seqNum].WithCommit(msg.commit);
      if st.IsCommitted(cfg.QuorumSize()) && st.phase == Prepared {
        ExecuteBlockKeeps(cfg, n, st.(phase := Committed), reply, out);
      } else {
        PutKeeps(cfg, n.engine.log, n.history, st);
        OnlyLogChanged(cfg, n, out.engine);
      }
    }
  }

  lemma InstallKeeps(cfg: Config, n: Node, e': Engine, view: nat, seqNum: nat, pp: PrePrepareMsg, own: PrepareMsg)
    requires cfg.Valid() && OnceInv(cfg, n) && n.engine.log.InWindow(seqNum)
    requires e'.checkpoints == n.engine.checkpoints && e'.committed == n.engine.committed
    requires e'.log == n.engine.log.Put(n.engine.log.Fetch(view, seqNum).WithPrePrepare(pp).WithPrepare(own))
    ensures Kept(cfg, n, Node(e', n.history))
  {
    PutKeeps(cfg, n.engine.log, n.history, n.engine.log.Fetch(view, seqNum).WithPrePrepare(pp).WithPrepare(own));
    OnlyLogChanged(cfg, n, e');
  }

  lemma RequestKeeps(cfg: Config, n: Node, op: Option<Bytes>, reaped: Option<seq<Bytes>>, arrange: Arrange,
                     out: Outcome)
    requires cfg.Valid() && OnceInv(cfg, n) && out == ProposeBlock(cfg, n.engine, op, reaped, arrange)
    ensures Kept(cfg, n, Node(out.engine, n.history)) && out.executed == []
  {
    var e := n.engine;
    var seqNum := e.sequenceNum + 1;
    if e.log.InWindow(seqNum) && TxsToPropose(op, reaped) != [] && arrange(TxsToPropose(op, reaped)).Some? {
      var pp := out.sent[0].prePrepare;
      InstallKeeps(cfg, n, out.engine, e.view, seqNum, pp, PrepareMsg(e.view, seqNum, pp.digest, cfg.nodeId));
    } else {
      OnlyLogChanged(cfg, n, out.engine);
    }
  }

  lemma PrePrepareKeeps(cfg: Config, n: Node, msg: Message, verdict: Verdict, out: Outcome)
    requires cfg.Valid() && OnceInv(cfg, n) && msg.PrePrepareNet?
    requires out == HandlePrePrepare(cfg, n.engine, msg, verdict)
    ensures Kept(cfg, n, Node(out.engine, n.history)) && out.executed == []
  {
    if out.sent != [] {
      InstallKeeps(cfg, n, out.engine, msg.view, msg.seqNum, msg.prePrepare, out.sent[0].prepare);
    }
  }

  lemma ViewChangeLeavesLog(cfg: Config, e: Engine, msg: Message, out: Outcome)
    requires cfg.Valid() && msg.ViewChangeNet? && HandleViewChange(cfg, e, msg, out)
    ensures out.engine.log == e.log && out.engine.checkpoints == e.checkpoints
    ensures out.engine.committed == e.committed && out.executed == []
  {
  }

  lemma NewViewKeeps(cfg: Config, n: Node, t: Turn)
    requires cfg.Valid() && OnceInv(cfg, n) && t.ev.Deliver? && t.ev.msg.NewViewNet?
    requires t.out == HandleNewView(cfg, n.engine, t.ev.msg) && KeepsMemory(cfg, n, t)
    ensures OnceInv(cfg, Node(t.out.engine, n.history)) && t.out.executed == []
    ensures WindowInv(cfg, n) && ReproposalsInWindow(cfg, n, t) ==> WindowInv(cfg, Node(t.out.engine, n.history))
  {
    var nv := t.ev.msg.newView;
    if Adopts(cfg, n.engine, nv) {
      ReprocessAt(n.engine.log, nv.prePrepares, nv.view, 0);
      ReprocessKeepsMemory(cfg, n.engine.log, n.history, nv.prePrepares, nv.view);
      if WindowInv(cfg, n) && ReproposalsInWindow(cfg, n, t) {
        ReprocessKeepsWindow(cfg, n.engine.log, nv.prePrepares, nv.view);
      }
      OnlyLogChanged(cfg, n, t.out.engine);
    }
  }

  lemma DeliverKeeps(cfg: Config, n: Node, msg: Message, verdict: Verdict, reply: Reply, out: Outcome)
    requires cfg.Valid() && OnceInv(cfg, n) && Next(cfg, n.engine, Deliver(msg, verdict, reply), out)
    requires !msg.NewViewNet?
    ensures Kept(cfg, n, Node(out.engine, n.history + out.executed))
  {
    assert n.history + [] == n.history;
    if msg.PrePrepareNet? {
      PrePrepareKeeps(cfg, n, msg, verdict, out);
    } else if msg.PrepareNet? {
      PrepareKeeps(cfg, n, msg, out);
    } else if msg.CommitNet? {
      CommitKeeps(cfg, n, msg, reply, out);
    } else {
      ViewChangeLeavesLog(cfg, n.engine, msg, out);
      OnlyLogChanged(cfg, n, out.engine);
    }
  }

  lemma {:induction false} TurnKeeps(cfg: Config, n: Node, t: Turn, n': Node)
    requires cfg.Valid() && OnceInv(cfg, n) && TakesTurn(cfg, n, t, n') && KeepsMemory(cfg, n, t)
    ensures OnceInv(cfg, n')
    ensures WindowInv(cfg, n) && ReproposalsInWindow(cfg, n, t) ==> WindowInv(cfg, n')
  {
    assert n.history + [] == n.history;
    match t.ev
    case Request(op, reaped, arrange) =>
      if cfg.Primary(n.engine.view) == cfg.nodeId {
        RequestKeeps(cfg, n, op, reaped, arrange, t.out);
      } else {
        OnlyLogChanged(cfg, n, t.out.engine);
      }
    case Timeout => OnlyLogChanged(cfg, n, t.out.engine);
    case Deliver(msg, verdict, reply) =>
      if msg.NewViewNet? {
        NewViewKeeps(cfg, n, t);
      } else {
        DeliverKeeps(cfg, n, msg, verdict, reply, t.out);
      }
  }

  lemma StepKeepsMemory(cfg: Config, n: Node, nodes: seq<Node>, turns: seq<Turn>, i: nat)
    requires cfg.Valid() && Continues(cfg, n, nodes, turns) && AllKeepMemory(cfg, nodes, turns)
    requires i < |turns| && OnceInv(cfg, nodes[i])
    ensures OnceInv(cfg, nodes[i + 1])
  {
    TurnKeeps(cfg, nodes[i], turns[i], nodes[i + 1]);
  }

  lemma {:induction false} OnceInvHolds(cfg: Config, nodes: seq<Node>, turns: seq<Turn>, i: nat)
    requires cfg.Valid() && IsRun(cfg, nodes, turns) && i < |nodes|
    requires AllKeepMemory(cfg, nodes, turns)
    ensures OnceInv(cfg, nodes[i])
  {
    if i > 0 {
      OnceInvHolds(cfg, nodes, turns, i - 1);
      StepKeepsMemory(cfg, NewNode(cfg), nodes, turns, i - 1);
    }
  }

  /** At-most-once execution: no number is ever executed twice, so the height counts the numbers executed, and
      every tracked executed state holds both quorums. */
  lemma AtMostOnce(cfg: Config, nodes: seq<Node>, turns: seq<Turn>, i: nat)
    requires cfg.Valid() && IsRun(cfg, nodes, turns) && i < |nodes|
    requires AllKeepMemory(cfg, nodes, turns)
    ensures Distinct(nodes[i].history)
    ensures |nodes[i].engine.committed| == |ExecutedNumbers(nodes[i].history)|
    ensures CommittedOk(nodes[i].engine.committed, nodes[i].history)
    ensures forall st <- nodes[i].engine.log.states.Values :: st.executed ==>
      |st.prepares| >= cfg.QuorumSize() && |st.commits| >= cfg.QuorumSize()
  {
    OnceInvHolds(cfg, nodes, turns, i);
    NumbersCount(nodes[i].history);
  }

  lemma StepKeepsWindow(cfg: Config, nodes: seq<Node>, turns: seq<Turn>, i: nat)
    requires cfg.Valid() && IsRun(cfg, nodes, turns) && AllInWindow(cfg, nodes, turns)
    requires i < |turns| && OnceInv(cfg, nodes[i]) && WindowInv(cfg, nodes[i])
    ensures OnceInv(cfg, nodes[i + 1]) && WindowInv(cfg, nodes[i + 1])
  {
    InWindowKeepsMemory(cfg, nodes[i], turns[i]);
    TurnKeeps(cfg, nodes[i], turns[i], nodes[i + 1]);
  }

  lemma {:induction false} WindowInvHolds(cfg: Config, nodes: seq<Node>, turns: seq<Turn>, i: nat)
    requires cfg.Valid() && IsRun(cfg, nodes, turns) && i < |nodes|
    requires AllInWindow(cfg, nodes, turns)
    ensures OnceInv(cfg, nodes[i]) && WindowInv(cfg, nodes[i])
  {
    if i > 0 {
      WindowInvHolds(cfg, nodes, turns, i - 1);
      StepKeepsWindow(cfg, nodes, turns, i - 1);
    }
  }

  lemma {:induction false} RangeSize(s: set<nat>, low: nat, high: nat)
    requires low <= high && forall x <- s :: low < x <= high
    ensures |s| <= high - low
    decreases high - low
  {
    if low == high {
      assert s == {};
    } else {
      RangeSize(s - {high}, low, high - 1);
      assert s <= (s - {high}) + {high};
      Quorum.SubsetSize(s, (s - {high}) + {high});
    }
  }

  lemma {:induction false} TakenMembers(interval: nat, history: seq<Execution>)
    requires interval > 0
    ensures forall x :: x in Taken(interval, history) <==> x in history && x.seqNum % interval == 0
  {
    if history == [] {
    } else {
      var init, x := history[..|history| - 1], history[|history| - 1];
      TakenMembers(interval, init);
      assert history == init + [x];
    }
  }

  /** Where the marks and the stored checkpoints of a node stand, given what it has executed. */
  ghost predicate MarksOk(cfg: Config, n: Node)
    requires cfg.Valid()
  {
    var log, taken := n.engine.log, Taken(cfg.checkpointInterval, n.history);
    && (log.low == 0 || exists x <- n.history :: x.seqNum == log.low)
    && log.low % cfg.checkpointInterval == 0
    && (forall x <- n.history :: x.seqNum % cfg.checkpointInterval == 0 ==> x.seqNum <= log.low)
    && log.high == log.low + cfg.windowSize
    && (forall s <- log.states :: log.low < s <= log.high)
    && |log.states| <= cfg.windowSize
    && Ascending(taken)
    && Holds(n.engine.checkpoints, LastThree(taken))
    && (log.InWindow(log.low + cfg.checkpointInterval) <==> cfg.checkpointInterval <= cfg.windowSize)
  }

  /** Watermarks and checkpoints: the low mark is the largest number ever checkpointed, every tracked state lies
      in the window, so at most WindowSize are live, and the stored checkpoints are the last three taken, each
      with the hash of the block executed there. The next checkpoint is in reach exactly when the interval fits
      the window. */
  lemma Watermarks(cfg: Config, nodes: seq<Node>, turns: seq<Turn>, i: nat)
    requires cfg.Valid() && IsRun(cfg, nodes, turns) && i < |nodes|
    requires AllInWindow(cfg, nodes, turns)
    ensures MarksOk(cfg, nodes[i])
  {
    WindowInvHolds(cfg, nodes, turns, i);
    MarksInOrder(cfg, nodes[i]);
  }

  lemma MarksInOrder(cfg: Config, n: Node)
    requires cfg.Valid() && WindowInv(cfg, n)
    ensures MarksOk(cfg, n)
  {
    var log, history := n.engine.log, n.history;
    var taken := Taken(cfg.checkpointInterval, history);
    TakenMembers(cfg.checkpointInterval, history);
    if taken != [] {
      assert taken[|taken| - 1] in history;
    }
    RangeSize(log.states.Keys, log.low, log.high);
    forall x <- history | x.seqNum % cfg.checkpointInterval == 0 ensures x.seqNum <= log.low {
      assert x in taken;
    }
  }
}
