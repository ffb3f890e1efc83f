/** A run of five nodes, with messages that the nodes themselves sent, in which one node executes the same number
    twice. Node 0 executes number 1, takes a checkpoint and discards the state; the others, who have not executed it,
    change the view, and the new primary proposes it again. */
module SecondExecution {
  import opened Types
  import opened Messages
  import opened StateLogs
  import opened ViewChangeRules
  import opened ViewChange
  import opened EngineRules
  import opened NodeRuns
  import opened ExecutionRuns
  import opened Network
  import opened Preservation
  import Quorum

  /** Consecutive states of the system, from any state. */
  ghost predicate Path(cfg: Config, states: seq<System>, acts: seq<Act>)
    requires cfg.Valid()
  {
    && |states| == |acts| + 1
    && forall i {:trigger acts[i]} | 0 <= i < |acts| :: Step(cfg, states[i], acts[i], states[i + 1])
  }

  ghost predicate Reaches(cfg: Config, s0: System, s: System)
    requires cfg.Valid()
  {
    exists states: seq<System>, acts: seq<Act> :: Path(cfg, states, acts) && states[0] == s0 && states[|acts|] == s
  }

  /** Only this node acted; messages stay sent. */
  ghost predicate Moves(s: System, s': System, id: NodeId) {
    && id in s.nodes && s'.nodes.Keys == s.nodes.Keys && s.net <= s'.net
    && forall k <- s.nodes :: k != id ==> s'.nodes[k] == s.nodes[k]
  }

  /** One more act. */
  lemma Take(cfg: Config, s0: System, s: System, id: NodeId, ev: Event, out: Outcome) returns (s': System)
    requires cfg.Valid() && Reaches(cfg, s0, s) && id in s.nodes && (ev.Deliver? ==> ev.msg in s.net)
    requires Next(For(cfg, id), s.nodes[id].engine, ev, out)
    ensures Reaches(cfg, s0, s') && Moves(s, s', id)
    ensures s'.nodes[id] == Node(out.engine, s.nodes[id].history + out.executed)
    ensures s'.net == s.net + set m <- out.sent
  {
    var states: seq<System>, acts: seq<Act> :| Path(cfg, states, acts) && states[0] == s0 && states[|acts|] == s;
    var a := Act(id, Turn(ev, out));
    s' := System(s.nodes[id := Node(out.engine, s.nodes[id].history + out.executed)], s.net + Sent(a.turn));
    assert Step(cfg, s, a, s');
    var states', acts' := states + [s'], acts + [a];
    forall i {:trigger acts'[i]} | 0 <= i < |acts'| ensures Step(cfg, states'[i], acts'[i], states'[i + 1]) {
      if i < |acts| {
        assert acts'[i] == acts[i];
      }
    }
    assert Path(cfg, states', acts');
  }

  // ----- What one node does with number 1 -----

  /** The node holds block `b` under number 1, not yet executed, with these votes. */
  ghost predicate Tracks(n: Node, view: nat, b: Block, phase: Phase, prepares: set<NodeId>, commits: set<NodeId>) {
    && n.engine.view == view && 1 in n.engine.log.states
    && var st := n.engine.log.states[1];
    && st.seqNum == 1 && st.phase == phase && st.block == Some(b) && !st.executed
    && st.prePrepare.Some? && st.prePrepare.value.digest == b.hash
    && st.prepares.Keys == prepares && st.commits.Keys == commits
  }

  /** As far as it matters here, only votes and phases differ. */
  ghost predicate SameRest(n: Node, n': Node) {
    && n'.history == n.history && n'.engine.manager == n.engine.manager && n'.engine.checkpoints == n.engine.checkpoints
    && n'.engine.log.low == n.engine.log.low && n'.engine.log.high == n.engine.log.high
    && n'.engine.log.states.Keys == n.engine.log.states.Keys
  }

  ghost function Prepare(view: nat, b: Block, id: NodeId): Message {
    PrepareNet(view, 1, b.hash, id, PrepareMsg(view, 1, b.hash, id))
  }

  ghost function Commit(view: nat, b: Block, id: NodeId): Message {
    CommitNet(view, 1, b.hash, id, CommitMsg(view, 1, b.hash, id))
  }

  lemma PutTracks(n: Node, st: SeqState, view: nat, b: Block, phase: Phase, prepares: set<NodeId>, commits: set<NodeId>)
    requires n.engine.view == view && 1 in n.engine.log.states
    requires st.seqNum == 1 && st.phase == phase && st.block == Some(b) && !st.executed
    requires st.prePrepare.Some? && st.prePrepare.value.digest == b.hash
    requires st.prepares.Keys == prepares && st.commits.Keys == commits
    ensures var n' := Node(n.engine.(log := n.engine.log.Put(st)), n.history);
            SameRest(n, n') && Tracks(n', view, b, phase, prepares, commits)
  {
  }

  lemma PreparedOutcome(cfg: Config, e: Engine, view: nat, b: Block, from: NodeId, st: SeqState)
    requires e.view == view && 1 in e.log.states && st == e.log.states[1].WithPrepare(Prepare(view, b, from).prepare)
    requires st.phase == PrePrepared && |st.prepares| >= cfg.QuorumSize()
    ensures var own := CommitMsg(view, 1, b.hash, cfg.nodeId);
            HandlePrepare(cfg, e, Prepare(view, b, from)) ==
            Outcome(e.(log := e.log.Put(st.(phase := Prepared).WithCommit(own))), [Commit(view, b, cfg.nodeId)], [])
  {
  }

  /** A prepare that completes the quorum. */
  lemma PrepareCompletes(cfg: Config, n: Node, view: nat, b: Block, prepares: set<NodeId>, commits: set<NodeId>,
                         from: NodeId)
    requires Tracks(n, view, b, PrePrepared, prepares, commits) && |prepares + {from}| >= cfg.QuorumSize()
    ensures var out := HandlePrepare(cfg, n.engine, Prepare(view, b, from));
            var n' := Node(out.engine, n.history);
            && out.executed == [] && out.sent == [Commit(view, b, cfg.nodeId)] && SameRest(n, n')
            && Tracks(n', view, b, Prepared, prepares + {from}, commits + {cfg.nodeId})
  {
    var st := n.engine.log.states[1].WithPrepare(Prepare(view, b, from).prepare);
    assert st.prepares.Keys == prepares + {from} && |st.prepares| == |st.prepares.Keys|;
    var st' := st.(phase := Prepared).WithCommit(CommitMsg(view, 1, b.hash, cfg.nodeId));
    assert st'.commits.Keys == commits + {cfg.nodeId};
    PreparedOutcome(cfg, n.engine, view, b, from, st);
    PutTracks(n, st', view, b, Prepared, prepares + {from}, commits + {cfg.nodeId});
  }

  /** A prepare that does not. */
  lemma PrepareJoins(cfg: Config, n: Node, view: nat, b: Block, prepares: set<NodeId>, commits: set<NodeId>,
                     from: NodeId)
    requires Tracks(n, view, b, PrePrepared, prepares, commits) && |prepares + {from}| < cfg.QuorumSize()
    ensures var out := HandlePrepare(cfg, n.engine, Prepare(view, b, from));
            var n' := Node(out.engine, n.history);
            && out.executed == [] && out.sent == [] && SameRest(n, n')
            && Tracks(n', view, b, PrePrepared, prepares + {from}, commits)
  {
    var st := n.engine.log.states[1].WithPrepare(Prepare(view, b, from).prepare);
    assert st.prepares.Keys == prepares + {from} && |st.prepares| == |st.prepares.Keys|;
    var out := HandlePrepare(cfg, n.engine, Prepare(view, b, from));
    assert out == EngineRules.Idle(n.engine.(log := n.engine.log.Put(st)));
    PutTracks(n, st, view, b, PrePrepared, prepares + {from}, commits);
  }

  lemma CommitCounted(cfg: Config, n: Node, view: nat, b: Block, prepares: set<NodeId>, commits: set<NodeId>,
                      from: NodeId)
    requires cfg.Valid() && cfg.checkpointInterval == 1 && Tracks(n, view, b, Prepared, prepares, commits)
    ensures var out := HandleCommit(cfg, n.engine, Commit(view, b, from), Done([]));
            && out.sent == []
            && if |commits + {from}| >= cfg.QuorumSize() then
                 && out.executed == [Execution(1, b)]
                 && out.engine.view == view && out.engine.manager == n.engine.manager
                 && (n.engine.log.low == 0 ==> 1 !in out.engine.log.states)
               else
                 var n' := Node(out.engine, n.history);
                 out.executed == [] && SameRest(n, n') && Tracks(n', view, b, Prepared, prepares, commits + {from})
  {
    var st := n.engine.log.states[1].WithCommit(Commit(view, b, from).commit);
    assert st.commits.Keys == commits + {from} && |st.commits| == |st.commits.Keys|;
  }

  /** A node that adopts a re-proposal of `b` keeps what votes it had. */
  lemma Reproposed(cfg: Config, n: Node, b: Block, msg: Message, prepares: set<NodeId>, commits: set<NodeId>)
    requires cfg.Valid() && Keyed(n.engine.log) && msg.NewViewNet? && Adopts(cfg, n.engine, msg.newView)
    requires |msg.newView.prePrepares| == 1
    requires var pp := msg.newView.prePrepares[0]; pp.seqNum == 1 && pp.digest == b.hash && pp.block == Some(b)
    requires if 1 in n.engine.log.states then exists phase :: Tracks(n, n.engine.view, b, phase, prepares, commits)
             else prepares == {} && commits == {}
    ensures var out := HandleNewView(cfg, n.engine, msg);
            && out.executed == [] && out.sent == [Prepare(msg.newView.view, b, cfg.nodeId)]
            && Tracks(Node(out.engine, n.history), msg.newView.view, b, PrePrepared, prepares, commits)
  {
    var pps := msg.newView.prePrepares;
    assert pps == [pps[0]];
    assert LastProposal(pps, 1) == Some(pps[0]);
    ReprocessAt(n.engine.log, pps, msg.newView.view, 1);
  }

  // ----- Five nodes -----

  ghost predicate Five(cfg: Config) {
    && ValidConfig(cfg) && |cfg.validators| == 5
    && cfg.checkpointInterval == 1 && cfg.windowSize >= 1
  }

  ghost function V(cfg: Config, k: nat): NodeId
    requires Five(cfg) && k < 5
  {
    cfg.validators[k]
  }

  lemma FiveFacts(cfg: Config)
    requires Five(cfg)
    ensures cfg.QuorumSize() == 3 && cfg.Primary(0) == V(cfg, 0) && cfg.Primary(1) == V(cfg, 1)
    ensures forall j, k | 0 <= j < k < 5 :: V(cfg, j) != V(cfg, k)
    ensures forall k | 0 <= k < 5 :: V(cfg, k) in Members(cfg)
  {
  }

  lemma AtLeastThree(ids: set<NodeId>, a: NodeId, b: NodeId, c: NodeId)
    requires {a, b, c} <= ids && a != b && a != c && b != c
    ensures |ids| >= 3
  {
    assert |{a, b, c}| == 3;
    Quorum.SubsetSize({a, b, c}, ids);
  }

  /** A node in view 0 that has executed nothing and voted for nothing. */
  ghost predicate Early(cfg: Config, n: Node, id: NodeId) {
    && n.history == [] && n.engine.view == 0 && n.engine.manager == NewManager(id, cfg.QuorumSize())
    && n.engine.checkpoints == map[] && n.engine.log.low == 0 && n.engine.log.high >= 1
    && n.engine.log.states.Keys <= {1}
  }

  // ----- Acts of the normal case -----

  /** An application that proposes what it is handed. */
  function Unchanged(txs: seq<Bytes>): Option<seq<Bytes>> {
    Some(txs)
  }

  lemma FirstProposal(cfg: Config)
    requires Five(cfg) && cfg.nodeId == V(cfg, 0) == cfg.Primary(0)
    ensures var out := ProposeBlock(cfg, NewEngine(cfg), Some([]), None, Unchanged);
            && |out.sent| == 1 && out.executed == []
            && out.sent[0].PrePrepareNet? && out.sent[0].prePrepare.block.Some?
            && var b := out.sent[0].prePrepare.block.value;
               && out.sent[0] == Proposal(cfg, 1, b)
               && Early(cfg, Node(out.engine, []), V(cfg, 0))
               && Tracks(Node(out.engine, []), 0, b, PrePrepared, {V(cfg, 0)}, {})
  {
  }

  lemma ProposeFirst(cfg: Config, s0: System, s: System) returns (s': System, b: Block)
    requires Five(cfg) && Reaches(cfg, s0, s)
    requires V(cfg, 0) in s.nodes && s.nodes[V(cfg, 0)] == NewNode(For(cfg, V(cfg, 0)))
    ensures Reaches(cfg, s0, s') && V(cfg, 0) in s'.nodes && Moves(s, s', V(cfg, 0))
    ensures Proposal(cfg, 1, b) in s'.net
    ensures Early(cfg, s'.nodes[V(cfg, 0)], V(cfg, 0))
    ensures Tracks(s'.nodes[V(cfg, 0)], 0, b, PrePrepared, {V(cfg, 0)}, {})
  {
    FiveFacts(cfg);
    var me := For(cfg, V(cfg, 0));
    FirstProposal(me);
    var out := ProposeBlock(me, NewEngine(me), Some([]), None, Unchanged);
    s' := Take(cfg, s0, s, V(cfg, 0), Request(Some([]), None, Unchanged), out);
    b := out.sent[0].prePrepare.block.value;
    assert Proposal(me, 1, b) == Proposal(cfg, 1, b);
  }

  lemma FirstRecord(cfg: Config, k: nat, b: Block)
    requires Five(cfg) && 0 < k < 5 && cfg.nodeId == V(cfg, k)
    ensures var msg, e := Proposal(cfg, 1, b), NewEngine(cfg);
            && !Crashes(cfg, e, msg)
            && var out := HandlePrePrepare(cfg, e, msg, Accepted);
               && out.sent == [Prepare(0, b, V(cfg, k))] && out.executed == []
               && Early(cfg, Node(out.engine, []), V(cfg, k))
               && Tracks(Node(out.engine, []), 0, b, PrePrepared, {V(cfg, k)}, {})
  {
  }

  lemma RecordFirst(cfg: Config, s0: System, s: System, k: nat, b: Block) returns (s': System)
    requires Five(cfg) && 0 < k < 5 && Reaches(cfg, s0, s)
    requires V(cfg, k) in s.nodes && s.nodes[V(cfg, k)] == NewNode(For(cfg, V(cfg, k))) && Proposal(cfg, 1, b) in s.net
    ensures Reaches(cfg, s0, s') && V(cfg, k) in s'.nodes && Moves(s, s', V(cfg, k))
    ensures Prepare(0, b, V(cfg, k)) in s'.net
    ensures Early(cfg, s'.nodes[V(cfg, k)], V(cfg, k))
    ensures Tracks(s'.nodes[V(cfg, k)], 0, b, PrePrepared, {V(cfg, k)}, {})
  {
    var me, msg := For(cfg, V(cfg, k)), Proposal(cfg, 1, b);
    assert Proposal(me, 1, b) == msg;
    FirstRecord(me, k, b);
    var out := HandlePrePrepare(me, NewEngine(me), msg, Accepted);
    s' := Take(cfg, s0, s, V(cfg, k), Deliver(msg, Accepted, FinalizeFailed), out);
    assert Prepare(0, b, V(cfg, k)) in out.sent;
  }

  lemma DeliverPrepare(cfg: Config, s0: System, s: System, id: NodeId, view: nat, b: Block, prepares: set<NodeId>,
                       commits: set<NodeId>, from: NodeId) returns (s': System)
    requires cfg.Valid() && Reaches(cfg, s0, s) && id in s.nodes && Prepare(view, b, from) in s.net
    requires Tracks(s.nodes[id], view, b, PrePrepared, prepares, commits)
    ensures Reaches(cfg, s0, s') && id in s'.nodes && Moves(s, s', id)
    ensures SameRest(s.nodes[id], s'.nodes[id])
    ensures if |prepares + {from}| >= cfg.QuorumSize() then
              && Tracks(s'.nodes[id], view, b, Prepared, prepares + {from}, commits + {id})
              && Commit(view, b, id) in s'.net
            else
              Tracks(s'.nodes[id], view, b, PrePrepared, prepares + {from}, commits)
  {
    var msg := Prepare(view, b, from);
    if |prepares + {from}| >= cfg.QuorumSize() {
      PrepareCompletes(For(cfg, id), s.nodes[id], view, b, prepares, commits, from);
    } else {
      PrepareJoins(For(cfg, id), s.nodes[id], view, b, prepares, commits, from);
    }
    var out := HandlePrepare(For(cfg, id), s.nodes[id].engine, msg);
    assert s.nodes[id].history + [] == s.nodes[id].history;
    s' := Take(cfg, s0, s, id, Deliver(msg, Rejected, FinalizeFailed), out);
    assert out.sent != [] ==> Commit(view, b, id) in out.sent;
  }

  lemma DeliverCommit(cfg: Config, s0: System, s: System, id: NodeId, view: nat, b: Block, prepares: set<NodeId>,
                      commits: set<NodeId>, from: NodeId) returns (s': System)
    requires cfg.Valid() && cfg.checkpointInterval == 1 && Reaches(cfg, s0, s) && id in s.nodes
    requires Tracks(s.nodes[id], view, b, Prepared, prepares, commits) && Commit(view, b, from) in s.net
    ensures Reaches(cfg, s0, s') && id in s'.nodes && Moves(s, s', id)
    ensures if |commits + {from}| >= cfg.QuorumSize() then Executes(s.nodes[id], s'.nodes[id], view, b)
            else
              && SameRest(s.nodes[id], s'.nodes[id])
              && Tracks(s'.nodes[id], view, b, Prepared, prepares, commits + {from})
  {
    var msg := Commit(view, b, from);
    CommitCounted(For(cfg, id), s.nodes[id], view, b, prepares, commits, from);
    var out := HandleCommit(For(cfg, id), s.nodes[id].engine, msg, Done([]));
    assert s.nodes[id].history + [] == s.nodes[id].history;
    s' := Take(cfg, s0, s, id, Deliver(msg, Rejected, Done([])), out);
  }

  /** The node executes `b`; the first time, it also discards its state. */
  ghost predicate Executes(n: Node, n': Node, view: nat, b: Block) {
    && n'.history == n.history + [Execution(1, b)]
    && n'.engine.view == view && n'.engine.manager == n.engine.manager
    && (n.engine.log.low == 0 ==> 1 !in n'.engine.log.states)
  }

  lemma FirstSender(votes: set<NodeId>, senders: seq<NodeId>)
    requires senders != []
    ensures votes + Elements(senders) == votes + {senders[0]} + Elements(senders[1..])
    ensures |senders| == 1 ==> votes + Elements(senders) == votes + {senders[0]}
  {
    assert senders == [senders[0]] + senders[1..];
  }

  ghost predicate PreparesSent(net: set<Message>, view: nat, b: Block, senders: seq<NodeId>) {
    forall from <- senders :: Prepare(view, b, from) in net
  }

  lemma PreparesStaySent(net: set<Message>, net': set<Message>, view: nat, b: Block, senders: seq<NodeId>)
    requires PreparesSent(net, view, b, senders) && net <= net' && senders != []
    ensures PreparesSent(net', view, b, senders[1..])
  {
    assert forall from <- senders[1..] :: from in senders;
  }

  lemma MovesTwice(s: System, s1: System, s2: System, id: NodeId)
    requires Moves(s, s1, id) && Moves(s1, s2, id)
    ensures Moves(s, s2, id)
  {
  }

  lemma SameRestTwice(n: Node, n1: Node, n2: Node)
    requires SameRest(n, n1) && SameRest(n1, n2)
    ensures SameRest(n, n2)
  {
  }

  /** Prepares are delivered to a node, one after the other, until it commits. */
  lemma CollectPrepares(cfg: Config, s0: System, s: System, id: NodeId, view: nat, b: Block, prepares: set<NodeId>,
                        commits: set<NodeId>, senders: seq<NodeId>) returns (s': System, prepares': set<NodeId>)
    requires cfg.Valid() && Reaches(cfg, s0, s) && id in s.nodes
    requires Tracks(s.nodes[id], view, b, PrePrepared, prepares, commits)
    requires senders != [] && PreparesSent(s.net, view, b, senders)
    requires |prepares + Elements(senders)| >= cfg.QuorumSize()
    ensures Reaches(cfg, s0, s') && id in s'.nodes && Moves(s, s', id)
    ensures Tracks(s'.nodes[id], view, b, Prepared, prepares', commits + {id}) && |prepares'| >= cfg.QuorumSize()
    ensures SameRest(s.nodes[id], s'.nodes[id])
    ensures Commit(view, b, id) in s'.net
    decreases |senders|
  {
    FirstSender(prepares, senders);
    var next := prepares + {senders[0]};
    var s1 := DeliverPrepare(cfg, s0, s, id, view, b, prepares, commits, senders[0]);
    if |next| >= cfg.QuorumSize() {
      return s1, next;
    }
    PreparesStaySent(s.net, s1.net, view, b, senders);
    s', prepares' := CollectPrepares(cfg, s0, s1, id, view, b, next, commits, senders[1..]);
    MovesTwice(s, s1, s', id);
    SameRestTwice(s.nodes[id], s1.nodes[id], s'.nodes[id]);
  }

  /** Commits are delivered to a node, one after the other, until it executes. */
  lemma CollectCommits(cfg: Config, s0: System, s: System, id: NodeId, view: nat, b: Block, prepares: set<NodeId>,
                       commits: set<NodeId>, senders: seq<NodeId>) returns (s': System)
    requires cfg.Valid() && cfg.checkpointInterval == 1 && Reaches(cfg, s0, s) && id in s.nodes
    requires Tracks(s.nodes[id], view, b, Prepared, prepares, commits)
    requires senders != [] && forall from <- senders :: Commit(view, b, from) in s.net
    requires |commits + Elements(senders)| >= cfg.QuorumSize()
    ensures Reaches(cfg, s0, s') && id in s'.nodes && Moves(s, s', id)
    ensures Executes(s.nodes[id], s'.nodes[id], view, b)
    decreases |senders|
  {
    FirstSender(commits, senders);
    s' := DeliverCommit(cfg, s0, s, id, view, b, prepares, commits, senders[0]);
    if |commits + {senders[0]}| < cfg.QuorumSize() {
      s' := CollectCommits(cfg, s0, s', id, view, b, prepares, commits + {senders[0]}, senders[1..]);
    }
  }

  lemma ThreeVotes(votes: set<NodeId>, x: NodeId, y: NodeId, z: NodeId)
    requires x in votes && x != y && x != z && y != z
    ensures |votes + Elements([y, z])| >= 3
  {
    AtLeastThree(votes + Elements([y, z]), x, y, z);
  }

  /** A node that has the prepare of `x` is given those of `y` and `z`, as far as it needs them. */
  lemma PrepareWithTwo(cfg: Config, s0: System, s: System, id: NodeId, view: nat, b: Block, prepares: set<NodeId>,
                       commits: set<NodeId>, x: NodeId, y: NodeId, z: NodeId)
    returns (s': System, prepares': set<NodeId>)
    requires cfg.Valid() && cfg.QuorumSize() == 3 && Reaches(cfg, s0, s) && id in s.nodes
    requires Tracks(s.nodes[id], view, b, PrePrepared, prepares, commits)
    requires x in prepares && x != y && x != z && y != z
    requires Prepare(view, b, y) in s.net && Prepare(view, b, z) in s.net
    ensures Reaches(cfg, s0, s') && Moves(s, s', id) && Commit(view, b, id) in s'.net
    ensures Tracks(s'.nodes[id], view, b, Prepared, prepares', commits + {id}) && |prepares'| >= 3
    ensures SameRest(s.nodes[id], s'.nodes[id])
  {
    ThreeVotes(prepares, x, y, z);
    s', prepares' := CollectPrepares(cfg, s0, s, id, view, b, prepares, commits, [y, z]);
  }

  /** A prepared node, which has its own commit, is given those of `y` and `z`, as far as it needs them. */
  lemma CommitWithTwo(cfg: Config, s0: System, s: System, id: NodeId, view: nat, b: Block, prepares: set<NodeId>,
                      commits: set<NodeId>, y: NodeId, z: NodeId) returns (s': System)
    requires cfg.Valid() && cfg.QuorumSize() == 3 && cfg.checkpointInterval == 1 && Reaches(cfg, s0, s) && id in s.nodes
    requires Tracks(s.nodes[id], view, b, Prepared, prepares, commits)
    requires id in commits && id != y && id != z && y != z
    requires Commit(view, b, y) in s.net && Commit(view, b, z) in s.net
    ensures Reaches(cfg, s0, s') && Moves(s, s', id) && Executes(s.nodes[id], s'.nodes[id], view, b)
  {
    ThreeVotes(commits, id, y, z);
    s' := CollectCommits(cfg, s0, s, id, view, b, prepares, commits, [y, z]);
  }

  // ----- The view change -----

  lemma {:induction false} ListPrepares(m: map<NodeId, PrepareMsg>) returns (ps: seq<PrepareMsg>)
    ensures ListsPrepares(ps, m)
    decreases |m|
  {
    if m == map[] {
      ps := [];
    } else {
      var id :| id in m;
      ps := ListPrepares(m - {id});
      ps := ps + [m[id]];
      assert |m - {id}| == |(m - {id}).Keys| && |m| == |m.Keys| && (m - {id}).Keys == m.Keys - {id};
      assert m[id] in m.Values;
      assert forall k <- m :: k == id || k in m - {id};
    }
  }

  /** The vote of an early node that reports these certificates. */
  ghost function VoteOf(n: Node, id: NodeId, certs: seq<PreparedCert>): ViewChangeMsg {
    ViewChangeMsg(1, n.engine.sequenceNum, [], certs, id)
  }

  lemma SendVote(cfg: Config, s0: System, s: System, id: NodeId, certs: seq<PreparedCert>) returns (s': System)
    requires cfg.Valid() && Reaches(cfg, s0, s) && id in s.nodes && Early(cfg, s.nodes[id], id)
    requires IsPreparedSet(0, s.nodes[id].engine.log, cfg.QuorumSize(), certs, s.nodes[id].engine.log.high + 1)
    ensures Reaches(cfg, s0, s') && id in s'.nodes && Moves(s, s', id)
    ensures var e, e' := s.nodes[id].engine, s'.nodes[id].engine;
            && s'.nodes[id].history == [] && e'.view == 0 && e'.log == e.log
            && e'.manager == e.manager.(inProgress := true).Record(VoteOf(s.nodes[id], id, certs))
    ensures Wrap(VoteOf(s.nodes[id], id, certs)) in s'.net
  {
    var e, vote := s.nodes[id].engine, VoteOf(s.nodes[id], id, certs);
    assert ListsCheckpoints([], e.checkpoints, id);
    var out := Outcome(e.(manager := e.manager.(inProgress := true).Record(vote)),
                       [ViewChangeNet(1, vote.lastSeqNum, id, vote)], []);
    assert s.nodes[id].history + [] == s.nodes[id].history;
    s' := Take(cfg, s0, s, id, Timeout, out);
    assert Wrap(vote) in out.sent;
  }

  /** A prepared node reports number 1. */
  lemma PreparedReports(cfg: Config, n: Node, id: NodeId, b: Block, prepares: set<NodeId>, commits: set<NodeId>)
    returns (cert: PreparedCert)
    requires Early(cfg, n, id) && Tracks(n, 0, b, Prepared, prepares, commits) && |prepares| >= cfg.QuorumSize()
    ensures IsPreparedSet(0, n.engine.log, cfg.QuorumSize(), [cert], n.engine.log.high + 1)
    ensures var pp := cert.prePrepare; pp.seqNum == 1 && pp.digest == b.hash && pp.block == Some(b)
  {
    var st := n.engine.log.states[1];
    var ps := ListPrepares(st.prepares);
    cert := PreparedCert(PrePrepareMsg(0, 1, b.hash, Some(b), st.prePrepare.value.primaryId), ps);
    assert |st.prepares| == |st.prepares.Keys|;
    assert IsCertOf(0, n.engine.log, cert);
    assert cert in [cert];
  }

  /** A node without a quorum of prepares reports nothing. */
  lemma OthersReportNothing(cfg: Config, n: Node, id: NodeId)
    requires Early(cfg, n, id)
    requires 1 in n.engine.log.states ==> |n.engine.log.states[1].prepares.Keys| < cfg.QuorumSize()
    ensures IsPreparedSet(0, n.engine.log, cfg.QuorumSize(), [], n.engine.log.high + 1)
  {
    if 1 in n.engine.log.states {
      assert |n.engine.log.states[1].prepares| == |n.engine.log.states[1].prepares.Keys|;
    }
  }

  /** A NEW-VIEW built from one vote with a certificate and two without. */
  lemma OneCertificate(cert: PreparedCert)
    requires cert.prePrepare.seqNum == 1
    ensures MaxPrepared([cert]) == 1 && FirstCertified([cert], 1) == Some(cert.prePrepare)
  {
    var certs := [cert];
    assert certs[..|certs| - 1] == [];
    assert MaxPrepared([]) == 0 && FirstCertified([], 1) == None;
  }

  lemma BuiltFromThree(votes: seq<ViewChangeMsg>, cert: PreparedCert, primary: NodeId)
    requires |votes| == 3 && (forall v <- votes :: v.newView == 1 && v.checkpoints == [])
    requires votes[0].preparedSet == [cert] && votes[1].preparedSet == votes[2].preparedSet == []
    requires cert.prePrepare.seqNum == 1
    ensures BuildNewView(1, votes, primary).prePrepares == [cert.prePrepare]
    ensures Acceptable(BuildNewView(1, votes, primary), 3)
  {
    CertsNext(votes, 0);
    CertsNext(votes, 1);
    CertsNext(votes, 2);
    assert votes[..0] == [] && votes[..3] == votes;
    assert Certs(votes) == [cert];
    CheckpointsMembers(votes);
    MaxCheckpointIsMax(Checkpoints(votes));
    OneCertificate(cert);
    assert RePropose([cert], 0, 0) == [];
    assert RePropose([cert], 0, 1) == [cert.prePrepare];
    ConsistentIsAcceptable(BuildNewView(1, votes, primary), 3);
  }

  /** The NEW-VIEW that proposes number 1 again, with block `b`. */
  ghost predicate ProposesAgain(cfg: Config, m: Message, b: Block)
    requires Five(cfg)
  {
    && m.NewViewNet? && m.newView.view == 1 && m.newView.newPrimaryId == V(cfg, 1) && Acceptable(m.newView, 3)
    && |m.newView.prePrepares| == 1
    && var pp := m.newView.prePrepares[0]; pp.seqNum == 1 && pp.digest == b.hash && pp.block == Some(b)
  }

  ghost function NewViewOf(cfg: Config, votes: seq<ViewChangeMsg>, e: Engine): Message
    requires Five(cfg)
  {
    NewViewNet(1, e.sequenceNum, V(cfg, 1), BuildNewView(1, votes, V(cfg, 1)))
  }

  /** What the next primary does with the second and the third vote. */
  lemma VotesHandled(cfg: Config, e: Engine, b: Block, own: ViewChangeMsg, v3: ViewChangeMsg, v4: ViewChangeMsg)
    requires Five(cfg) && e.view == 0 && OnFile(cfg, e, b, own, v3, v4)
    ensures var me := For(cfg, V(cfg, 1));
            var e1 := e.(manager := e.manager.Record(v3));
            var e2 := e1.(manager := e1.manager.Record(v4));
            var m := NewViewOf(cfg, [own, v3, v4], e);
            && HandleViewChange(me, e, Wrap(v3), EngineRules.Idle(e1))
            && HandleViewChange(me, e1, Wrap(v4),
                                Outcome(e2.(manager := e2.manager.Adopt(m.newView), view := 1), [m], []))
            && ProposesAgain(cfg, m, b)
  {
    FiveFacts(cfg);
    TablesGrow(cfg, own, v3, v4);
    assert own.preparedSet == [own.preparedSet[0]];
    BuiltFromThree([own, v3, v4], own.preparedSet[0], V(cfg, 1));
  }

  /** The next primary has its own vote on file and is given two more. */
  lemma CollectVotes(cfg: Config, s0: System, s: System, b: Block, own: ViewChangeMsg, v3: ViewChangeMsg,
                     v4: ViewChangeMsg) returns (s': System, m: Message)
    requires Five(cfg) && Voted(cfg, s0, s, b, own, v3, v4)
    ensures Reaches(cfg, s0, s') && Moves(s, s', V(cfg, 1))
    ensures m in s'.net && ProposesAgain(cfg, m, b)
  {
    var n := s.nodes[V(cfg, 1)];
    VotesHandled(cfg, n.engine, b, own, v3, v4);
    var e1 := n.engine.(manager := n.engine.manager.Record(v3));
    var e2 := e1.(manager := e1.manager.Record(v4));
    m := NewViewOf(cfg, [own, v3, v4], n.engine);
    var out := Outcome(e2.(manager := e2.manager.Adopt(m.newView), view := 1), [m], []);
    assert n.history + [] == n.history;
    var s1 := Take(cfg, s0, s, V(cfg, 1), Deliver(Wrap(v3), Rejected, FinalizeFailed), EngineRules.Idle(e1));
    s' := Take(cfg, s0, s1, V(cfg, 1), Deliver(Wrap(v4), Rejected, FinalizeFailed), out);
    assert m in out.sent;
    MovesTwice(s, s1, s', V(cfg, 1));
  }

  /** The new primary's vote table as the votes come in. */
  lemma TablesGrow(cfg: Config, own: ViewChangeMsg, v3: ViewChangeMsg, v4: ViewChangeMsg)
    requires Five(cfg) && own.newView == v3.newView == v4.newView == 1
    requires own.nodeId == V(cfg, 1) && v3.nodeId == V(cfg, 3) && v4.nodeId == V(cfg, 4)
    ensures var m1 := NewManager(V(cfg, 1), 3).(inProgress := true).Record(own);
            && |m1.Record(v3).Table(1)| == 2
            && m1.Record(v3).Record(v4).Table(1) == map[V(cfg, 1) := own, V(cfg, 3) := v3, V(cfg, 4) := v4]
            && |m1.Record(v3).Record(v4).Table(1)| == 3
            && Lists([own, v3, v4], m1.Record(v3).Record(v4).Table(1))
  {
    FiveFacts(cfg);
    var m1 := NewManager(V(cfg, 1), 3).(inProgress := true).Record(own);
    assert m1.Table(1) == map[V(cfg, 1) := own];
    assert m1.Record(v3).Table(1) == map[V(cfg, 1) := own, V(cfg, 3) := v3];
  }

  lemma AdoptReproposal(cfg: Config, s0: System, s: System, id: NodeId, b: Block, m: Message, prepares: set<NodeId>,
                        commits: set<NodeId>) returns (s': System)
    requires Five(cfg) && Init(cfg, s0) && Reaches(cfg, s0, s) && id in s.nodes && s.nodes[id].engine.view == 0
    requires m in s.net && ProposesAgain(cfg, m, b)
    requires if 1 in s.nodes[id].engine.log.states then
               exists phase :: Tracks(s.nodes[id], 0, b, phase, prepares, commits)
             else prepares == {} && commits == {}
    ensures Reaches(cfg, s0, s') && id in s'.nodes && Moves(s, s', id)
    ensures Tracks(s'.nodes[id], 1, b, PrePrepared, prepares, commits) && s'.nodes[id].history == s.nodes[id].history
    ensures Prepare(1, b, id) in s'.net
  {
    FiveFacts(cfg);
    ReachedTables(cfg, s0, s);
    var me := For(cfg, id);
    assert TableTraced(cfg, s.net, id, s.nodes[id].engine);
    assert me.Primary(1) == V(cfg, 1);
    Reproposed(me, s.nodes[id], b, m, prepares, commits);
    var out := HandleNewView(me, s.nodes[id].engine, m);
    assert s.nodes[id].history + [] == s.nodes[id].history;
    s' := Take(cfg, s0, s, id, Deliver(m, Rejected, FinalizeFailed), out);
    assert Prepare(1, b, id) in out.sent;
  }

  lemma ReachedTables(cfg: Config, s0: System, s: System)
    requires cfg.Valid() && Init(cfg, s0) && Reaches(cfg, s0, s)
    ensures VoteInv(cfg, s)
  {
    var states: seq<System>, acts: seq<Act> :| Path(cfg, states, acts) && states[0] == s0 && states[|acts|] == s;
    VoteInvHolds(cfg, states, acts, |acts|);
  }

  // ----- The run -----

  lemma Start(cfg: Config) returns (s0: System)
    requires Five(cfg)
    ensures Init(cfg, s0) && Reaches(cfg, s0, s0)
    ensures forall k | 0 <= k < 5 :: V(cfg, k) in s0.nodes && s0.nodes[V(cfg, k)] == NewNode(For(cfg, V(cfg, k)))
  {
    FiveFacts(cfg);
    s0 := System(map id | id in Members(cfg) :: NewNode(For(cfg, id)), {});
    var states, acts: seq<Act> := [s0], [];
    assert Path(cfg, states, acts) && states[0] == s0 && states[|acts|] == s0;
  }

  /** Node 0 has proposed `b`, and the nodes before n have recorded it. */
  ghost predicate Recorded(cfg: Config, s0: System, s: System, b: Block, n: nat)
    requires Five(cfg) && 1 <= n <= 4
  {
    && Reaches(cfg, s0, s) && (forall k | 0 <= k < 5 :: V(cfg, k) in s.nodes)
    && (forall k | 0 <= k < n ::
          && Early(cfg, s.nodes[V(cfg, k)], V(cfg, k))
          && Tracks(s.nodes[V(cfg, k)], 0, b, PrePrepared, {V(cfg, k)}, {}))
    && (forall k | 0 < k < n :: Prepare(0, b, V(cfg, k)) in s.net)
    && Proposal(cfg, 1, b) in s.net
    && (forall k | n <= k < 5 :: s.nodes[V(cfg, k)] == NewNode(For(cfg, V(cfg, k))))
  }

  lemma OneMoreRecords(cfg: Config, s0: System, s: System, b: Block, n: nat) returns (s': System)
    requires Five(cfg) && 1 <= n < 4 && Recorded(cfg, s0, s, b, n)
    ensures Recorded(cfg, s0, s', b, n + 1)
  {
    FiveFacts(cfg);
    s' := RecordFirst(cfg, s0, s, n, b);
  }

  lemma {:induction false} RecordedUpTo(cfg: Config, s0: System, n: nat) returns (s: System, b: Block)
    requires Five(cfg) && 1 <= n <= 4 && Reaches(cfg, s0, s0)
    requires forall k | 0 <= k < 5 :: V(cfg, k) in s0.nodes && s0.nodes[V(cfg, k)] == NewNode(For(cfg, V(cfg, k)))
    ensures Recorded(cfg, s0, s, b, n)
  {
    FiveFacts(cfg);
    if n == 1 {
      s, b := ProposeFirst(cfg, s0, s0);
    } else {
      var s1;
      s1, b := RecordedUpTo(cfg, s0, n - 1);
      s := OneMoreRecords(cfg, s0, s1, b, n - 1);
    }
  }

  /** The node holds a quorum of prepares for `b` in this view, has committed, and has these commits. */
  ghost predicate Ready(n: Node, view: nat, b: Block, commits: set<NodeId>) {
    && 1 in n.engine.log.states
    && Tracks(n, view, b, Prepared, n.engine.log.states[1].prepares.Keys, commits)
    && |n.engine.log.states[1].prepares.Keys| >= 3
  }

  ghost predicate Waiting(cfg: Config, s: System, b: Block, k: nat)
    requires Five(cfg) && k < 5
  {
    && V(cfg, k) in s.nodes && Early(cfg, s.nodes[V(cfg, k)], V(cfg, k))
    && Tracks(s.nodes[V(cfg, k)], 0, b, PrePrepared, {V(cfg, k)}, {})
  }

  ghost predicate HasCommitted(cfg: Config, s: System, b: Block, k: nat)
    requires Five(cfg) && k < 5
  {
    && V(cfg, k) in s.nodes && Early(cfg, s.nodes[V(cfg, k)], V(cfg, k))
    && Ready(s.nodes[V(cfg, k)], 0, b, {V(cfg, k)}) && Commit(0, b, V(cfg, k)) in s.net
  }

  lemma StillWaiting(cfg: Config, s: System, s': System, b: Block, j: nat, k: nat)
    requires Five(cfg) && k < 5 && j < 5 && j != k && Moves(s, s', V(cfg, j))
    ensures Waiting(cfg, s, b, k) ==> Waiting(cfg, s', b, k)
    ensures HasCommitted(cfg, s, b, k) ==> HasCommitted(cfg, s', b, k)
  {
    FiveFacts(cfg);
    assert V(cfg, k) != V(cfg, j);
  }

  /** Nodes 0 to 3 are in the normal case; nodes 1, 2 and 0 commit in this order, the first t of them already. */
  ghost predicate NormalCase(cfg: Config, s0: System, s: System, b: Block, t: nat)
    requires Five(cfg)
  {
    && Reaches(cfg, s0, s)
    && (if t >= 1 then HasCommitted(cfg, s, b, 1) else Waiting(cfg, s, b, 1))
    && (if t >= 2 then HasCommitted(cfg, s, b, 2) else Waiting(cfg, s, b, 2))
    && (if t >= 3 then HasCommitted(cfg, s, b, 0) else Waiting(cfg, s, b, 0))
    && Waiting(cfg, s, b, 3)
    && Prepare(0, b, V(cfg, 1)) in s.net && Prepare(0, b, V(cfg, 2)) in s.net && Prepare(0, b, V(cfg, 3)) in s.net
    && Untouched(cfg, s, 4)
  }

  ghost predicate Untouched(cfg: Config, s: System, k: nat)
    requires Five(cfg) && k < 5
  {
    V(cfg, k) in s.nodes && s.nodes[V(cfg, k)] == NewNode(For(cfg, V(cfg, k)))
  }

  lemma PrepareOne(cfg: Config, s0: System, s: System, b: Block, k: nat, y: nat, z: nat) returns (s': System)
    requires Five(cfg) && Reaches(cfg, s0, s) && k < 4 && y < 4 && z < 4 && k != y && k != z && y != z
    requires Waiting(cfg, s, b, k) && Prepare(0, b, V(cfg, y)) in s.net && Prepare(0, b, V(cfg, z)) in s.net
    ensures Reaches(cfg, s0, s') && Moves(s, s', V(cfg, k)) && HasCommitted(cfg, s', b, k)
  {
    FiveFacts(cfg);
    var id, prepares := V(cfg, k), {};
    assert id != V(cfg, y) && id != V(cfg, z) && V(cfg, y) != V(cfg, z);
    s', prepares := PrepareWithTwo(cfg, s0, s, id, 0, b, {id}, {}, id, V(cfg, y), V(cfg, z));
    assert {} + {id} == {id};
  }

  lemma {:induction false} NormalCaseUpTo(cfg: Config, s0: System, s: System, b: Block, t: nat) returns (s': System)
    requires Five(cfg) && Recorded(cfg, s0, s, b, 4) && t <= 3
    ensures NormalCase(cfg, s0, s', b, t)
  {
    if t == 0 {
      s' := s;
    } else {
      var s1 := NormalCaseUpTo(cfg, s0, s, b, t - 1);
      s' := CommitNext(cfg, s0, s1, b, t - 1);
    }
  }

  lemma CommitNext(cfg: Config, s0: System, s: System, b: Block, t: nat) returns (s': System)
    requires Five(cfg) && t < 3 && NormalCase(cfg, s0, s, b, t)
    ensures NormalCase(cfg, s0, s', b, t + 1)
  {
    FiveFacts(cfg);
    var k, y, z := if t == 0 then 1 else if t == 1 then 2 else 0, if t == 1 then 1 else if t == 0 then 3 else 1,
                   if t == 0 then 2 else if t == 1 then 3 else 2;
    s' := PrepareOne(cfg, s0, s, b, k, y, z);
    forall j | 0 <= j < 4 && j != k
      ensures Waiting(cfg, s, b, j) ==> Waiting(cfg, s', b, j)
      ensures HasCommitted(cfg, s, b, j) ==> HasCommitted(cfg, s', b, j)
    {
      StillWaiting(cfg, s, s', b, k, j);
    }
    assert V(cfg, 4) != V(cfg, k);
  }

  /** Node 0 has executed number 1 and discarded it; nodes 1 and 2 are prepared; node 3 only recorded the proposal;
      node 4 knows nothing. */
  ghost predicate ExecutedOnce(cfg: Config, s0: System, s: System, b: Block)
    requires Five(cfg)
  {
    && Reaches(cfg, s0, s)
    && V(cfg, 0) in s.nodes && s.nodes[V(cfg, 0)].history == [Execution(1, b)] && Blank(s.nodes[V(cfg, 0)])
    && HasCommitted(cfg, s, b, 1) && HasCommitted(cfg, s, b, 2) && Waiting(cfg, s, b, 3) && Untouched(cfg, s, 4)
  }

  /** The node is in view 0 and does not track number 1. */
  ghost predicate Blank(n: Node) {
    n.engine.view == 0 && 1 !in n.engine.log.states
  }

  lemma FirstExecution(cfg: Config, s0: System, s: System, b: Block) returns (s': System)
    requires Five(cfg) && NormalCase(cfg, s0, s, b, 3)
    ensures ExecutedOnce(cfg, s0, s', b)
  {
    FiveFacts(cfg);
    var n := s.nodes[V(cfg, 0)];
    s' := CommitWithTwo(cfg, s0, s, V(cfg, 0), 0, b, n.engine.log.states[1].prepares.Keys, {V(cfg, 0)}, V(cfg, 1),
                        V(cfg, 2));
  }

  /** Node 1 is about to be given the votes of nodes 3 and 4; its own is on file. */
  ghost predicate Voted(cfg: Config, s0: System, s: System, b: Block, own: ViewChangeMsg, v3: ViewChangeMsg,
                        v4: ViewChangeMsg)
    requires Five(cfg)
  {
    && Reaches(cfg, s0, s) && V(cfg, 1) in s.nodes && s.nodes[V(cfg, 1)].engine.view == 0
    && OnFile(cfg, s.nodes[V(cfg, 1)].engine, b, own, v3, v4)
    && Wrap(v3) in s.net && Wrap(v4) in s.net
  }

  ghost predicate OnFile(cfg: Config, e: Engine, b: Block, own: ViewChangeMsg, v3: ViewChangeMsg, v4: ViewChangeMsg)
    requires Five(cfg)
  {
    && OwnOnFile(cfg, e, b, own)
    && v3 == ViewChangeMsg(1, v3.lastSeqNum, [], [], V(cfg, 3))
    && v4 == ViewChangeMsg(1, v4.lastSeqNum, [], [], V(cfg, 4))
  }

  ghost predicate OwnOnFile(cfg: Config, e: Engine, b: Block, own: ViewChangeMsg)
    requires Five(cfg)
  {
    && e.manager == NewManager(V(cfg, 1), 3).(inProgress := true).Record(own)
    && own.newView == 1 && own.nodeId == V(cfg, 1) && own.checkpoints == [] && |own.preparedSet| == 1
    && Certificate(own.preparedSet[0], b)
  }

  ghost predicate Certificate(cert: PreparedCert, b: Block) {
    cert.prePrepare.seqNum == 1 && cert.prePrepare.digest == b.hash && cert.prePrepare.block == Some(b)
  }

  /** Node k, which has nothing to report, votes. */
  lemma EmptyVote(cfg: Config, s0: System, s: System, k: nat) returns (s': System, vote: ViewChangeMsg)
    requires Five(cfg) && Reaches(cfg, s0, s) && k < 5 && V(cfg, k) in s.nodes
    requires Early(cfg, s.nodes[V(cfg, k)], V(cfg, k))
    requires var log := s.nodes[V(cfg, k)].engine.log; 1 in log.states ==> |log.states[1].prepares.Keys| < 3
    ensures Reaches(cfg, s0, s') && Moves(s, s', V(cfg, k)) && Wrap(vote) in s'.net
    ensures vote == ViewChangeMsg(1, vote.lastSeqNum, [], [], V(cfg, k))
    ensures var n, n' := s.nodes[V(cfg, k)], s'.nodes[V(cfg, k)];
            n'.engine.view == 0 && n'.engine.log == n.engine.log
  {
    FiveFacts(cfg);
    OthersReportNothing(cfg, s.nodes[V(cfg, k)], V(cfg, k));
    vote := VoteOf(s.nodes[V(cfg, k)], V(cfg, k), []);
    s' := SendVote(cfg, s0, s, V(cfg, k), []);
  }

  /** Node 1 votes. */
  lemma OwnVote(cfg: Config, s0: System, s: System, b: Block) returns (s': System, own: ViewChangeMsg)
    requires Five(cfg) && Reaches(cfg, s0, s) && HasCommitted(cfg, s, b, 1)
    ensures Reaches(cfg, s0, s') && Moves(s, s', V(cfg, 1)) && s'.nodes[V(cfg, 1)].engine.view == 0
    ensures OwnOnFile(cfg, s'.nodes[V(cfg, 1)].engine, b, own)
  {
    FiveFacts(cfg);
    var n1 := s.nodes[V(cfg, 1)];
    var cert := PreparedReports(cfg, n1, V(cfg, 1), b, n1.engine.log.states[1].prepares.Keys, {V(cfg, 1)});
    own := VoteOf(n1, V(cfg, 1), [cert]);
    s' := SendVote(cfg, s0, s, V(cfg, 1), [cert]);
  }

  /** Nodes 1, 3 and 4 vote. */
  lemma SendVotes(cfg: Config, s0: System, s: System, b: Block)
    returns (s': System, own: ViewChangeMsg, v3: ViewChangeMsg, v4: ViewChangeMsg)
    requires Five(cfg) && ExecutedOnce(cfg, s0, s, b)
    ensures Voted(cfg, s0, s', b, own, v3, v4) && Toward(cfg, s', b) && s'.nodes[V(cfg, 0)] == s.nodes[V(cfg, 0)]
  {
    FiveFacts(cfg);
    assert |{V(cfg, 3)}| == 1;
    var s1, s2;
    s1, own := OwnVote(cfg, s0, s, b);
    s2, v3 := EmptyVote(cfg, s0, s1, 3);
    s', v4 := EmptyVote(cfg, s0, s2, 4);
  }

  /** What nodes 0, 2, 3 and 4 hold before they adopt the new view. */
  ghost predicate Toward(cfg: Config, s: System, b: Block)
    requires Five(cfg)
  {
    && (forall k | 0 <= k < 5 :: V(cfg, k) in s.nodes)
    && Blank(s.nodes[V(cfg, 0)]) && Blank(s.nodes[V(cfg, 4)])
    && Ready(s.nodes[V(cfg, 2)], 0, b, {V(cfg, 2)})
    && Tracks(s.nodes[V(cfg, 3)], 0, b, PrePrepared, {V(cfg, 3)}, {})
  }

  lemma ViewChanges(cfg: Config, s0: System, s: System, b: Block) returns (s': System, m: Message)
    requires Five(cfg) && ExecutedOnce(cfg, s0, s, b)
    ensures Reaches(cfg, s0, s') && Toward(cfg, s', b) && m in s'.net && ProposesAgain(cfg, m, b)
    ensures s'.nodes[V(cfg, 0)] == s.nodes[V(cfg, 0)]
  {
    FiveFacts(cfg);
    var s1, own, v3, v4 := SendVotes(cfg, s0, s, b);
    s', m := CollectVotes(cfg, s0, s1, b, own, v3, v4);
  }

  /** The node has adopted the new view, with what prepares and commits it had before. */
  ghost predicate Adopted(cfg: Config, s: System, b: Block, k: nat, prepares: set<NodeId>, commits: set<NodeId>)
    requires Five(cfg) && k < 5
  {
    && V(cfg, k) in s.nodes && Tracks(s.nodes[V(cfg, k)], 1, b, PrePrepared, prepares, commits)
    && Prepare(1, b, V(cfg, k)) in s.net
  }

  /** Nodes 0 and 4 adopt the new view. */
  lemma AdoptBlank(cfg: Config, s0: System, s: System, b: Block, m: Message) returns (s': System)
    requires Five(cfg) && Init(cfg, s0) && Reaches(cfg, s0, s) && Toward(cfg, s, b)
    requires m in s.net && ProposesAgain(cfg, m, b)
    ensures Reaches(cfg, s0, s') && s.net <= s'.net && s'.nodes.Keys == s.nodes.Keys
    ensures Adopted(cfg, s', b, 0, {}, {}) && Adopted(cfg, s', b, 4, {}, {})
    ensures s'.nodes[V(cfg, 0)].history == s.nodes[V(cfg, 0)].history
    ensures s'.nodes[V(cfg, 2)] == s.nodes[V(cfg, 2)] && s'.nodes[V(cfg, 3)] == s.nodes[V(cfg, 3)]
  {
    FiveFacts(cfg);
    s' := AdoptReproposal(cfg, s0, s, V(cfg, 0), b, m, {}, {});
    s' := AdoptReproposal(cfg, s0, s', V(cfg, 4), b, m, {}, {});
  }

  /** Nodes 2 and 3 adopt it as well. */
  lemma Adoptions(cfg: Config, s0: System, s: System, b: Block, m: Message) returns (s': System, p2: set<NodeId>)
    requires Five(cfg) && Init(cfg, s0) && Reaches(cfg, s0, s) && Toward(cfg, s, b)
    requires m in s.net && ProposesAgain(cfg, m, b)
    ensures Reaches(cfg, s0, s') && V(cfg, 0) in s'.nodes && s'.nodes[V(cfg, 0)].history == s.nodes[V(cfg, 0)].history
    ensures AllAdopted(cfg, s', b, p2)
  {
    FiveFacts(cfg);
    var v2, v3 := V(cfg, 2), V(cfg, 3);
    p2 := s.nodes[v2].engine.log.states[1].prepares.Keys;
    var s1 := AdoptBlank(cfg, s0, s, b, m);
    var s2 := AdoptReproposal(cfg, s0, s1, v2, b, m, p2, {v2});
    s' := AdoptReproposal(cfg, s0, s2, v3, b, m, {v3}, {});
  }

  ghost predicate AllAdopted(cfg: Config, s: System, b: Block, p2: set<NodeId>)
    requires Five(cfg)
  {
    && Adopted(cfg, s, b, 0, {}, {}) && Adopted(cfg, s, b, 4, {}, {})
    && Adopted(cfg, s, b, 2, p2, {V(cfg, 2)}) && |p2| >= 3
    && Adopted(cfg, s, b, 3, {V(cfg, 3)}, {})
  }

  /** Node 0 becomes prepared again. */
  lemma ZeroPrepares(cfg: Config, s0: System, s: System, b: Block, p2: set<NodeId>)
    returns (s': System, p0: set<NodeId>)
    requires Five(cfg) && Reaches(cfg, s0, s) && AllAdopted(cfg, s, b, p2)
    ensures Reaches(cfg, s0, s') && Moves(s, s', V(cfg, 0))
    ensures s'.nodes[V(cfg, 0)].history == s.nodes[V(cfg, 0)].history
    ensures Tracks(s'.nodes[V(cfg, 0)], 1, b, Prepared, p0, {V(cfg, 0)})
  {
    FiveFacts(cfg);
    var v0, v2, v3, v4 := V(cfg, 0), V(cfg, 2), V(cfg, 3), V(cfg, 4);
    AtLeastThree({} + Elements([v2, v3, v4]), v2, v3, v4);
    s', p0 := CollectPrepares(cfg, s0, s, v0, 1, b, {}, {}, [v2, v3, v4]);
    assert {} + {v0} == {v0};
  }

  /** So do nodes 2 and 3. */
  lemma OthersPrepare(cfg: Config, s0: System, s: System, b: Block, p2: set<NodeId>) returns (s': System)
    requires Five(cfg) && Reaches(cfg, s0, s)
    requires Adopted(cfg, s, b, 2, p2, {V(cfg, 2)}) && |p2| >= 3 && Adopted(cfg, s, b, 3, {V(cfg, 3)}, {})
    requires Prepare(1, b, V(cfg, 0)) in s.net && Prepare(1, b, V(cfg, 4)) in s.net && V(cfg, 0) in s.nodes
    ensures Reaches(cfg, s0, s') && V(cfg, 0) in s'.nodes && s'.nodes[V(cfg, 0)] == s.nodes[V(cfg, 0)]
    ensures Commit(1, b, V(cfg, 2)) in s'.net && Commit(1, b, V(cfg, 3)) in s'.net
  {
    FiveFacts(cfg);
    var v0, v2, v3, v4 := V(cfg, 0), V(cfg, 2), V(cfg, 3), V(cfg, 4);
    Quorum.SubsetSize(p2, p2 + {v0});
    var s1 := DeliverPrepare(cfg, s0, s, v2, 1, b, p2, {v2}, v0);
    var p3;
    s', p3 := PrepareWithTwo(cfg, s0, s1, v3, 1, b, {v3}, {}, v3, v2, v4);
  }

  lemma SecondExecutes(cfg: Config, s0: System, s: System, b: Block, p2: set<NodeId>) returns (s': System)
    requires Five(cfg) && Reaches(cfg, s0, s) && AllAdopted(cfg, s, b, p2)
    ensures Reaches(cfg, s0, s') && V(cfg, 0) in s'.nodes
    ensures s'.nodes[V(cfg, 0)].history == s.nodes[V(cfg, 0)].history + [Execution(1, b)]
  {
    FiveFacts(cfg);
    var s1, p0 := ZeroPrepares(cfg, s0, s, b, p2);
    var s2 := OthersPrepare(cfg, s0, s1, b, p2);
    s' := CommitWithTwo(cfg, s0, s2, V(cfg, 0), 1, b, p0, {V(cfg, 0)}, V(cfg, 2), V(cfg, 3));
  }

  lemma FirstHalf(cfg: Config) returns (s0: System, s: System, b: Block)
    requires Five(cfg)
    ensures Init(cfg, s0) && ExecutedOnce(cfg, s0, s, b)
  {
    s0 := Start(cfg);
    s, b := RecordedUpTo(cfg, s0, 4);
    s := NormalCaseUpTo(cfg, s0, s, b, 3);
    s := FirstExecution(cfg, s0, s, b);
  }

  lemma {:induction false} SecondHalf(cfg: Config, s0: System, s: System, b: Block) returns (s': System)
    requires Five(cfg) && Init(cfg, s0) && ExecutedOnce(cfg, s0, s, b)
    ensures Reaches(cfg, s0, s') && V(cfg, 0) in s'.nodes
    ensures s'.nodes[V(cfg, 0)].history == [Execution(1, b), Execution(1, b)]
  {
    var s1, m := ViewChanges(cfg, s0, s, b);
    var s2, p2 := Adoptions(cfg, s0, s1, b, m);
    s' := SecondExecutes(cfg, s0, s2, b, p2);
  }

  /** At-most-once fails: messages sent by the nodes themselves bring one of any five nodes to execute a block twice
      under the same number, although any two quorums of five meet. */
  lemma NumberExecutedTwice(cfg: Config) returns (states: seq<System>, acts: seq<Act>, id: NodeId, b: Block)
    requires Five(cfg)
    ensures IsSystemRun(cfg, states, acts) && id in states[|acts|].nodes
    ensures states[|acts|].nodes[id].history == [Execution(1, b), Execution(1, b)]
    ensures !Distinct(states[|acts|].nodes[id].history)
    ensures 2 * cfg.QuorumSize() > |cfg.validators|
  {
    var s0, s1;
    s0, s1, b := FirstHalf(cfg);
    var s := SecondHalf(cfg, s0, s1, b);
    id := V(cfg, 0);
    states, acts :| Path(cfg, states, acts) && states[0] == s0 && states[|acts|] == s;
    assert s.nodes[id].history[0].seqNum == s.nodes[id].history[1].seqNum;
  }
}
