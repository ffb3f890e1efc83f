/** Exactly when a NEW-VIEW endangers at-most-once execution. */
module ForgottenExecutions {
  import opened Types
  import opened Messages
  import opened StateLogs
  import opened EngineRules
  import opened NodeRuns
  import opened ExecutionRuns
  import Quorum

  /** The node can go on, with turns that all keep its memory, until it has executed a number twice. */
  ghost predicate CanRepeat(cfg: Config, n: Node)
    requires cfg.Valid()
  {
    exists nodes: seq<Node>, turns: seq<Turn> ::
      Continues(cfg, n, nodes, turns) && AllKeepMemory(cfg, nodes, turns) && EndsTwice(nodes)
  }

  /** The node can go on, without adopting any further NEW-VIEW, until it has executed a number twice. */
  ghost predicate CanRepeatQuietly(cfg: Config, n: Node)
    requires cfg.Valid()
  {
    exists nodes: seq<Node>, turns: seq<Turn> :: RepeatsBy(cfg, n, nodes, turns)
  }

  ghost predicate RepeatsBy(cfg: Config, n: Node, nodes: seq<Node>, turns: seq<Turn>)
    requires cfg.Valid()
  {
    && Continues(cfg, n, nodes, turns)
    && (forall k {:trigger turns[k]} | 0 <= k < |turns| :: !Installs(cfg, nodes[k], turns[k]))
    && EndsTwice(nodes)
  }

  ghost predicate EndsTwice(nodes: seq<Node>) {
    nodes != [] && !Distinct(nodes[|nodes| - 1].history)
  }

  lemma QuietlyIsPossible(cfg: Config, n: Node)
    requires cfg.Valid() && CanRepeatQuietly(cfg, n)
    ensures CanRepeat(cfg, n)
  {
    var nodes: seq<Node>, turns: seq<Turn> :| RepeatsBy(cfg, n, nodes, turns);
    assert AllKeepMemory(cfg, nodes, turns);
  }

  lemma {:induction false} MemoryKeptAlong(cfg: Config, n: Node, nodes: seq<Node>, turns: seq<Turn>, i: nat)
    requires cfg.Valid() && OnceInv(cfg, n)
    requires Continues(cfg, n, nodes, turns) && AllKeepMemory(cfg, nodes, turns) && i < |nodes|
    ensures OnceInv(cfg, nodes[i])
  {
    if i > 0 {
      MemoryKeptAlong(cfg, n, nodes, turns, i - 1);
      StepKeepsMemory(cfg, n, nodes, turns, i - 1);
    }
  }

  lemma RememberedIsNeverRepeated(cfg: Config, n: Node)
    requires cfg.Valid() && OnceInv(cfg, n)
    ensures !CanRepeat(cfg, n)
  {
    forall nodes: seq<Node>, turns: seq<Turn>
      | Continues(cfg, n, nodes, turns) && AllKeepMemory(cfg, nodes, turns)
      ensures !EndsTwice(nodes)
    {
      MemoryKeptAlong(cfg, n, nodes, turns, |turns|);
    }
  }

  // ----- A way to a second execution -----

  lemma RepeatsNow(cfg: Config, n: Node)
    requires cfg.Valid() && !Distinct(n.history)
    ensures CanRepeatQuietly(cfg, n)
  {
    assert RepeatsBy(cfg, n, [n], []);
  }

  lemma RepeatsLater(cfg: Config, n: Node, t: Turn, n': Node)
    requires cfg.Valid() && TakesTurn(cfg, n, t, n') && !Installs(cfg, n, t) && CanRepeatQuietly(cfg, n')
    ensures CanRepeatQuietly(cfg, n)
  {
    var nodes, turns :| RepeatsBy(cfg, n', nodes, turns);
    var nodes1, turns1 := [n] + nodes, [t] + turns;
    forall i {:trigger turns1[i]} | 0 <= i < |turns1|
      ensures TakesTurn(cfg, nodes1[i], turns1[i], nodes1[i + 1]) && !Installs(cfg, nodes1[i], turns1[i])
    {
      if i > 0 {
        assert turns1[i] == turns[i - 1] && nodes1[i] == nodes[i - 1] && nodes1[i + 1] == nodes[i];
      }
    }
    assert RepeatsBy(cfg, n, nodes1, turns1);
  }

  /** Distinct senders. The handlers check neither the sender of a vote nor its digest. */
  ghost function Name(k: nat): NodeId {
    seq(k, _ => 0)
  }

  ghost function Names(k: nat): set<NodeId> {
    if k == 0 then {} else Names(k - 1) + {Name(k - 1)}
  }

  lemma {:induction false} NamesCount(k: nat)
    ensures |Names(k)| == k
    ensures forall id <- Names(k) :: |id| < k
  {
    if k > 0 {
      NamesCount(k - 1);
      assert |Name(k - 1)| == k - 1;
    }
  }

  /** The number was executed, yet its state is in phase `phase` as if it had not been. */
  ghost predicate Forgotten(n: Node, s: nat, phase: Phase) {
    && s in ExecutedNumbers(n.history)
    && s in n.engine.log.states
    && var st := n.engine.log.states[s];
    && st.seqNum == s && st.phase == phase && !st.executed && st.block.Some?
  }

  lemma ExecutedAgain(history: seq<Execution>, x: Execution)
    requires x.seqNum in ExecutedNumbers(history)
    ensures !Distinct(history + [x])
  {
    var y :| y in history && y.seqNum == x.seqNum;
    var i :| 0 <= i < |history| && history[i] == y;
    assert (history + [x])[i].seqNum == (history + [x])[|history|].seqNum;
  }

  /** A commit from `id` is delivered: either it completes a quorum and the block is executed, or it is counted. */
  lemma OneCommit(cfg: Config, n: Node, s: nat, id: NodeId) returns (n': Node)
    requires cfg.Valid() && Forgotten(n, s, Prepared)
    ensures CanRepeatQuietly(cfg, n') ==> CanRepeatQuietly(cfg, n)
    ensures var commits := n.engine.log.states[s].commits.Keys + {id};
            if |commits| >= cfg.QuorumSize() then !Distinct(n'.history)
            else Forgotten(n', s, Prepared) && n'.engine.log.states[s].commits.Keys == commits
  {
    var e, st := n.engine, n.engine.log.states[s];
    var msg := CommitNet(e.view, s, [], id, CommitMsg(e.view, s, [], id));
    var t := Turn(Deliver(msg, Rejected, Done([])), HandleCommit(cfg, e, msg, Done([])));
    n' := Node(t.out.engine, n.history + t.out.executed);
    var commits := st.WithCommit(msg.commit).commits;
    assert commits.Keys == st.commits.Keys + {id} && |commits| == |commits.Keys|;
    if |commits| >= cfg.QuorumSize() {
      assert t.out.executed == [Execution(s, st.block.value)];
      ExecutedAgain(n.history, Execution(s, st.block.value));
    } else {
      assert n.history + [] == n.history;
    }
    if CanRepeatQuietly(cfg, n') {
      RepeatsLater(cfg, n, t, n');
    }
  }

  lemma {:induction false} CommitsRepeat(cfg: Config, n: Node, s: nat, k: nat)
    requires cfg.Valid() && Forgotten(n, s, Prepared)
    requires k <= cfg.QuorumSize() && Names(k) <= n.engine.log.states[s].commits.Keys
    ensures CanRepeatQuietly(cfg, n)
    decreases cfg.QuorumSize() - k
  {
    var n' := OneCommit(cfg, n, s, Name(k));
    var commits := n.engine.log.states[s].commits.Keys + {Name(k)};
    if |commits| >= cfg.QuorumSize() {
      RepeatsNow(cfg, n');
    } else {
      NamesCount(k + 1);
      Quorum.SubsetSize(Names(k + 1), commits);
      CommitsRepeat(cfg, n', s, k + 1);
    }
  }

  /** A prepare from `id` is delivered: either it completes a quorum and the node commits, or it is counted. */
  lemma OnePrepare(cfg: Config, n: Node, s: nat, id: NodeId) returns (n': Node)
    requires cfg.Valid() && Forgotten(n, s, PrePrepared)
    ensures CanRepeatQuietly(cfg, n') ==> CanRepeatQuietly(cfg, n)
    ensures var prepares := n.engine.log.states[s].prepares.Keys + {id};
            if |prepares| >= cfg.QuorumSize() then Forgotten(n', s, Prepared)
            else Forgotten(n', s, PrePrepared) && n'.engine.log.states[s].prepares.Keys == prepares
  {
    var e := n.engine;
    var vote := PrepareMsg(e.view, s, [], id);
    var msg := PrepareNet(e.view, s, [], id, vote);
    var t := Turn(Deliver(msg, Rejected, FinalizeFailed), HandlePrepare(cfg, e, msg));
    n' := Node(t.out.engine, n.history);
    assert n.history + [] == n.history;
    var prepares := e.log.states[s].WithPrepare(vote).prepares;
    assert prepares.Keys == e.log.states[s].prepares.Keys + {id} && |prepares| == |prepares.Keys|;
    if CanRepeatQuietly(cfg, n') {
      RepeatsLater(cfg, n, t, n');
    }
  }

  lemma {:induction false} PreparesRepeat(cfg: Config, n: Node, s: nat, k: nat)
    requires cfg.Valid() && Forgotten(n, s, PrePrepared)
    requires k <= cfg.QuorumSize() && Names(k) <= n.engine.log.states[s].prepares.Keys
    ensures CanRepeatQuietly(cfg, n)
    decreases cfg.QuorumSize() - k
  {
    var n' := OnePrepare(cfg, n, s, Name(k));
    var prepares := n.engine.log.states[s].prepares.Keys + {Name(k)};
    if |prepares| >= cfg.QuorumSize() {
      assert Names(0) == {};
      CommitsRepeat(cfg, n', s, 0);
    } else {
      NamesCount(k + 1);
      Quorum.SubsetSize(Names(k + 1), prepares);
      PreparesRepeat(cfg, n', s, k + 1);
    }
  }

  lemma RevivedIsForgotten(cfg: Config, n: Node, n': Node, nv: NewViewMsg, s: nat)
    requires OnceInv(cfg, n) && s in ExecutedNumbers(n.history) && !WasExecuted(n.engine.log, s)
    requires Revives(nv.prePrepares, s)
    requires n'.history == n.history && n'.engine.log == Reprocess(n.engine.log, nv.prePrepares, nv.view)
    ensures Forgotten(n', s, PrePrepared)
  {
    ReprocessAt(n.engine.log, nv.prePrepares, nv.view, s);
  }

  /** The executed number that a turn brought back has its block, no votes but old ones, and no mark of execution. */
  lemma {:induction false} InstallForgets(cfg: Config, n: Node, t: Turn, n': Node)
    requires cfg.Valid() && OnceInv(cfg, n) && TakesTurn(cfg, n, t, n') && !KeepsMemory(cfg, n, t)
    ensures CanRepeatQuietly(cfg, n')
  {
    var nv := t.ev.msg.newView;
    assert Adopts(cfg, n.engine, nv);
    var s :| s in ExecutedNumbers(n.history) && !WasExecuted(n.engine.log, s) && Revives(nv.prePrepares, s);
    assert n.history + [] == n.history;
    assert n'.engine.log == Reprocess(n.engine.log, nv.prePrepares, nv.view);
    RevivedIsForgotten(cfg, n, n', nv, s);
    assert Names(0) == {};
    PreparesRepeat(cfg, n', s, 0);
  }

  /** At-most-once exactly, for a node that has executed nothing twice so far. After any turn: if the turn brought
      back no executed number, then no continuation that brings back none repeats an execution; if it brought one
      back, votes alone can make the node execute it again, without any further NEW-VIEW. */
  lemma AtMostOnceExactly(cfg: Config, n: Node, t: Turn, n': Node)
    requires cfg.Valid() && OnceInv(cfg, n) && TakesTurn(cfg, n, t, n')
    ensures KeepsMemory(cfg, n, t) <==> !CanRepeat(cfg, n')
    ensures KeepsMemory(cfg, n, t) <==> !CanRepeatQuietly(cfg, n')
  {
    if KeepsMemory(cfg, n, t) {
      TurnKeeps(cfg, n, t, n');
      RememberedIsNeverRepeated(cfg, n');
    } else {
      InstallForgets(cfg, n, t, n');
    }
    if CanRepeatQuietly(cfg, n') {
      QuietlyIsPossible(cfg, n');
    }
  }

  /** The same along any run, up to and including its first turn that brings back an executed number. */
  lemma AtMostOnceInRuns(cfg: Config, nodes: seq<Node>, turns: seq<Turn>, i: nat)
    requires cfg.Valid() && IsRun(cfg, nodes, turns) && i < |turns|
    requires forall k {:trigger turns[k]} | 0 <= k < i :: KeepsMemory(cfg, nodes[k], turns[k])
    ensures KeepsMemory(cfg, nodes[i], turns[i]) <==> !CanRepeat(cfg, nodes[i + 1])
    ensures KeepsMemory(cfg, nodes[i], turns[i]) <==> !CanRepeatQuietly(cfg, nodes[i + 1])
  {
    var nodes', turns' := nodes[..i + 1], turns[..i];
    assert forall k {:trigger turns'[k]} | 0 <= k < i :: turns'[k] == turns[k];
    OnceInvHolds(cfg, nodes', turns', i);
    AtMostOnceExactly(cfg, nodes[i], turns[i], nodes[i + 1]);
  }
}
