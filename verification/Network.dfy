/** The whole system: one engine per validator and the set of all messages ever broadcast. A message in the set may
    reach any node any number of times, in any order, or never, so loss, duplication and reordering are covered;
    a node that stops taking turns has crashed. */
module Network {
  import opened Types
  import opened Messages
  import opened StateLogs
  import opened EngineRules
  import opened NodeRuns
  import Quorum

  datatype System = System(nodes: map<NodeId, Node>, net: set<Message>)

  datatype Act = Act(id: NodeId, turn: Turn)

  ghost predicate ValidConfig(cfg: Config) {
    && cfg.Valid()
    && forall i, j | 0 <= i < j < |cfg.validators| :: cfg.validators[i] != cfg.validators[j]
  }

  /** Rotation: any n consecutive views have n different primaries, so every validator is primary of exactly one. */
  lemma PrimariesRotate(cfg: Config, v: nat, id: NodeId)
    requires ValidConfig(cfg)
    ensures forall a: nat, b: nat | v <= a < b < v + |cfg.validators| :: cfg.Primary(a) != cfg.Primary(b)
    ensures id in cfg.validators ==> exists a: nat | v <= a < v + |cfg.validators| :: cfg.Primary(a) == id
  {
    var n := |cfg.validators|;
    forall a: nat, b: nat | v <= a < b < v + n ensures cfg.Primary(a) != cfg.Primary(b) {
      Quorum.CountingOn(v, n, a - v);
      Quorum.CountingOn(v, n, b - v);
    }
    if id in cfg.validators {
      var r :| 0 <= r < n && cfg.validators[r] == id;
      var i := if v % n <= r then r - v % n else n - v % n + r;
      Quorum.CountingOn(v, n, i);
      assert cfg.Primary(v + i) == id;
    }
  }

  ghost function Elements(ids: seq<NodeId>): set<NodeId> {
    set v <- ids
  }

  ghost function Members(cfg: Config): set<NodeId> {
    Elements(cfg.validators)
  }

  ghost function For(cfg: Config, id: NodeId): Config {
    cfg.(nodeId := id)
  }

  ghost predicate Init(cfg: Config, s: System) {
    && s.nodes == (map id | id in Members(cfg) :: NewNode(For(cfg, id)))
    && s.net == {}
  }

  ghost function Sent(t: Turn): set<Message> {
    set m <- t.out.sent
  }

  ghost predicate Step(cfg: Config, s: System, a: Act, s': System)
    requires cfg.Valid()
  {
    && a.id in s.nodes && a.id in s'.nodes
    && (a.turn.ev.Deliver? ==> a.turn.ev.msg in s.net)
    && TakesTurn(For(cfg, a.id), s.nodes[a.id], a.turn, s'.nodes[a.id])
    && s'.nodes == s.nodes[a.id := s'.nodes[a.id]]
    && s'.net == s.net + Sent(a.turn)
  }

  ghost predicate IsSystemRun(cfg: Config, states: seq<System>, acts: seq<Act>)
    requires cfg.Valid()
  {
    && |states| == |acts| + 1
    && Init(cfg, states[0])
    && forall i {:trigger acts[i]} | 0 <= i < |acts| :: Step(cfg, states[i], acts[i], states[i + 1])
  }

  lemma {:induction false} MembersKept(cfg: Config, states: seq<System>, acts: seq<Act>, i: nat)
    requires cfg.Valid() && IsSystemRun(cfg, states, acts) && i < |states|
    ensures states[i].nodes.Keys == Members(cfg)
  {
    if i > 0 {
      MembersKept(cfg, states, acts, i - 1);
      assert Step(cfg, states[i - 1], acts[i - 1], states[i]);
    }
  }

  lemma {:induction false} MembersCount(validators: seq<NodeId>)
    requires forall i, j | 0 <= i < j < |validators| :: validators[i] != validators[j]
    ensures |Elements(validators)| == |validators|
  {
    if validators == [] {
    } else {
      var init, last := validators[..|validators| - 1], validators[|validators| - 1];
      MembersCount(init);
      assert validators == init + [last];
      assert Elements(validators) == Elements(init) + {last};
    }
  }

  // ----- The initial view in force -----

  ghost predicate AllInView0(s: System) {
    forall id <- s.nodes :: s.nodes[id].engine.view == 0
  }

  lemma ViewNeverDrops(cfg: Config, e: Engine, ev: Event, out: Outcome)
    requires cfg.Valid() && Next(cfg, e, ev, out)
    ensures out.engine.view >= e.view
  {
    if ev.Request? || (ev.Deliver? && !ev.msg.ViewChangeNet? && !ev.msg.NewViewNet?) {
      NormalCaseKeepsManager(cfg, e, ev, out);
    }
  }

  lemma View0Before(cfg: Config, s: System, a: Act, s': System)
    requires cfg.Valid() && Step(cfg, s, a, s') && AllInView0(s')
    ensures AllInView0(s)
  {
    ViewNeverDrops(For(cfg, a.id), s.nodes[a.id].engine, a.turn.ev, a.turn.out);
    forall id <- s.nodes ensures s.nodes[id].engine.view == 0 {
      assert id in s'.nodes && s'.nodes[id].engine.view == 0;
    }
  }

  /** The proposal of `block` under `seqNum` by the primary of view 0. */
  ghost function Proposal(cfg: Config, seqNum: nat, block: Block): Message
    requires cfg.Valid()
  {
    PrePrepareNet(0, seqNum, block.hash, cfg.Primary(0),
                  PrePrepareMsg(0, seqNum, block.hash, Some(block), cfg.Primary(0)))
  }

  ghost function PrepareVote(seqNum: nat, digest: Bytes, id: NodeId): Message {
    PrepareNet(0, seqNum, digest, id, PrepareMsg(0, seqNum, digest, id))
  }

  ghost function CommitVote(seqNum: nat, digest: Bytes, id: NodeId): Message {
    CommitNet(0, seqNum, digest, id, CommitMsg(0, seqNum, digest, id))
  }

  /** Some block with this digest was proposed for this number. */
  ghost predicate Proposed(cfg: Config, net: set<Message>, seqNum: nat, digest: Bytes)
    requires cfg.Valid()
  {
    exists m <- net :: m.PrePrepareNet? && m.seqNum == seqNum && m.digest == digest
  }

  /** Every message of the normal case was produced by the handlers. */
  ghost predicate Genuine(cfg: Config, net: set<Message>, m: Message)
    requires cfg.Valid()
  {
    match m
    case PrePrepareNet(_, seqNum, _, _, pp) => pp.block.Some? && m == Proposal(cfg, seqNum, pp.block.value)
    case PrepareNet(_, seqNum, digest, id, _) =>
      m == PrepareVote(seqNum, digest, id) && id in Members(cfg) && Proposed(cfg, net, seqNum, digest)
    case CommitNet(_, seqNum, digest, id, _) =>
      m == CommitVote(seqNum, digest, id) && id in Members(cfg) && Proposed(cfg, net, seqNum, digest)
    case _ => true
  }

  ghost predicate AllGenuine(cfg: Config, net: set<Message>)
    requires cfg.Valid()
  {
    forall m <- net :: Genuine(cfg, net, m)
  }

  /** No number was proposed twice. */
  ghost predicate OneProposalEach(net: set<Message>) {
    forall m <- net, m' <- net :: m.PrePrepareNet? && m'.PrePrepareNet? && m.seqNum == m'.seqNum ==> m == m'
  }

  ghost predicate ProposalsCounted(net: set<Message>, counter: nat) {
    forall m <- net :: m.PrePrepareNet? ==> m.seqNum <= counter
  }

  /** The state for s holds the proposed block and votes for its digest by members; each commit was broadcast,
      and so was each prepare but the primary's own. */
  ghost predicate StateTraced(cfg: Config, net: set<Message>, s: nat, st: SeqState)
    requires cfg.Valid()
  {
    && st.seqNum == s
    && st.block.Some? && Proposal(cfg, s, st.block.value) in net
    && var d := st.block.value.hash;
    && st.prePrepare == Some(Proposal(cfg, s, st.block.value).prePrepare)
    && (forall id <- st.prepares :: id in Members(cfg) && st.prepares[id] == PrepareMsg(0, s, d, id)
                                    && (id == cfg.Primary(0) || PrepareVote(s, d, id) in net))
    && (forall id <- st.commits :: id in Members(cfg) && st.commits[id] == CommitMsg(0, s, d, id)
                                   && CommitVote(s, d, id) in net)
  }

  ghost function Committers(cfg: Config, net: set<Message>, seqNum: nat, digest: Bytes): set<NodeId> {
    set id | id in Members(cfg) && CommitVote(seqNum, digest, id) in net
  }

  ghost predicate ExecutionTraced(cfg: Config, net: set<Message>, x: Execution)
    requires cfg.Valid()
  {
    && Proposal(cfg, x.seqNum, x.block) in net
    && |Committers(cfg, net, x.seqNum, x.block.hash)| >= cfg.QuorumSize()
  }

  ghost predicate NodeTraced(cfg: Config, net: set<Message>, n: Node)
    requires cfg.Valid()
  {
    && (forall s <- n.engine.log.states :: StateTraced(cfg, net, s, n.engine.log.states[s]))
    && (forall x <- n.history :: ExecutionTraced(cfg, net, x))
  }

  ghost predicate NetInv(cfg: Config, s: System)
    requires cfg.Valid()
  {
    && s.nodes.Keys == Members(cfg)
    && AllGenuine(cfg, s.net)
    && OneProposalEach(s.net)
    && cfg.Primary(0) in s.nodes && ProposalsCounted(s.net, s.nodes[cfg.Primary(0)].engine.sequenceNum)
    && forall id <- s.nodes :: NodeTraced(cfg, s.net, s.nodes[id])
  }

  // ----- Growing the set of messages -----

  lemma GenuineGrows(cfg: Config, net: set<Message>, net': set<Message>, m: Message)
    requires cfg.Valid() && Genuine(cfg, net, m) && net <= net'
    ensures Genuine(cfg, net', m)
  {
  }

  lemma StateTracedGrows(cfg: Config, net: set<Message>, net': set<Message>, s: nat, st: SeqState)
    requires cfg.Valid() && StateTraced(cfg, net, s, st) && net <= net'
    ensures StateTraced(cfg, net', s, st)
  {
  }

  lemma ExecutionTracedGrows(cfg: Config, net: set<Message>, net': set<Message>, x: Execution)
    requires cfg.Valid() && ExecutionTraced(cfg, net, x) && net <= net'
    ensures ExecutionTraced(cfg, net', x)
  {
    Quorum.SubsetSize(Committers(cfg, net, x.seqNum, x.block.hash), Committers(cfg, net', x.seqNum, x.block.hash));
  }

  lemma NodeTracedGrows(cfg: Config, net: set<Message>, net': set<Message>, n: Node)
    requires cfg.Valid() && NodeTraced(cfg, net, n) && net <= net'
    ensures NodeTraced(cfg, net', n)
  {
    forall s <- n.engine.log.states ensures StateTraced(cfg, net', s, n.engine.log.states[s]) {
      StateTracedGrows(cfg, net, net', s, n.engine.log.states[s]);
    }
    forall x <- n.history ensures ExecutionTraced(cfg, net', x) {
      ExecutionTracedGrows(cfg, net, net', x);
    }
  }

  // ----- One turn -----

  /** What a turn of a traced node must establish in the enlarged message set. */
  ghost predicate TurnTraced(cfg: Config, net': set<Message>, n': Node, t: Turn)
    requires cfg.Valid()
  {
    NodeTraced(cfg, net', n') && forall m <- t.out.sent :: Genuine(cfg, net', m)
  }

  lemma PutTraced(cfg: Config, net: set<Message>, net': set<Message>, n: Node, n': Node, st: SeqState)
    requires cfg.Valid() && NodeTraced(cfg, net, n) && net <= net'
    requires n'.engine.log.states == n.engine.log.states[st.seqNum := st] && n'.history == n.history
    requires StateTraced(cfg, net', st.seqNum, st)
    ensures NodeTraced(cfg, net', n')
  {
    NodeTracedGrows(cfg, net, net', n);
  }

  lemma SameProposal(cfg: Config, net: set<Message>, seqNum: nat, digest: Bytes, block: Block)
    requires cfg.Valid() && OneProposalEach(net)
    requires Proposed(cfg, net, seqNum, digest) && Proposal(cfg, seqNum, block) in net
    ensures digest == block.hash
  {
    var m :| m in net && m.PrePrepareNet? && m.seqNum == seqNum && m.digest == digest;
    assert m == Proposal(cfg, seqNum, block);
  }

  lemma NotTrackedYet(cfg: Config, net: set<Message>, n: Node, seqNum: nat)
    requires cfg.Valid() && NodeTraced(cfg, net, n)
    requires forall m <- net :: m.PrePrepareNet? ==> m.seqNum < seqNum
    ensures seqNum !in n.engine.log.states
  {
  }

  lemma RequestTraced(cfg: Config, net: set<Message>, n: Node, id: NodeId, t: Turn, n': Node)
    requires cfg.Valid() && id in Members(cfg) && NodeTraced(cfg, net, n)
    requires t.ev.Request? && TakesTurn(For(cfg, id), n, t, n') && n.engine.view == 0
    requires id == cfg.Primary(0) ==> ProposalsCounted(net, n.engine.sequenceNum)
    ensures TurnTraced(cfg, net + Sent(t), n', t)
    ensures forall m <- t.out.sent :: m.PrePrepareNet? && id == cfg.Primary(0) &&
                                      m.seqNum == n.engine.sequenceNum + 1 == n'.engine.sequenceNum
    ensures |t.out.sent| <= 1 && n'.engine.sequenceNum >= n.engine.sequenceNum
  {
    var net' := net + Sent(t);
    assert n.history + [] == n.history;
    if t.out.sent != [] {
      var m := t.out.sent[0];
      var seqNum := n.engine.sequenceNum + 1;
      assert m in net';
      assert m == Proposal(cfg, seqNum, m.prePrepare.block.value);
      NotTrackedYet(cfg, net, n, seqNum);
      var st := n'.engine.log.states[seqNum];
      PutTraced(cfg, net, net', n, n', st);
    } else {
      NodeTracedGrows(cfg, net, net', n);
    }
  }

  lemma PrePrepareTraced(cfg: Config, net: set<Message>, n: Node, id: NodeId, msg: Message, verdict: Verdict, t: Turn,
                         n': Node)
    requires cfg.Valid() && id in Members(cfg) && NodeTraced(cfg, net, n) && OneProposalEach(net)
    requires msg in net && msg.PrePrepareNet? && Genuine(cfg, net, msg)
    requires t.out == HandlePrePrepare(For(cfg, id), n.engine, msg, verdict) && n' == Node(t.out.engine, n.history)
    ensures TurnTraced(cfg, net + Sent(t), n', t)
  {
    var net' := net + Sent(t);
    NodeTracedGrows(cfg, net, net', n);
    if t.out.sent != [] {
      var s, block := msg.seqNum, msg.prePrepare.block.value;
      var vote := PrepareVote(s, block.hash, id);
      assert t.out.sent == [vote] && vote in net';
      assert Proposed(cfg, net', s, block.hash);
      var st := n'.engine.log.states[s];
      if s in n.engine.log.states {
        assert n.engine.log.states[s].block.value == block;
      }
      PutTraced(cfg, net, net', n, n', st);
    }
  }

  lemma VotedTraced(cfg: Config, net: set<Message>, net': set<Message>, st: SeqState, msg: Message)
    requires cfg.Valid() && StateTraced(cfg, net, st.seqNum, st) && net <= net'
    requires msg == PrepareVote(st.seqNum, st.block.value.hash, msg.nodeId) && msg in net && msg.nodeId in Members(cfg)
    ensures StateTraced(cfg, net', st.seqNum, st.WithPrepare(msg.prepare))
  {
    StateTracedGrows(cfg, net, net', st.seqNum, st);
  }

  lemma PrepareTraced(cfg: Config, net: set<Message>, n: Node, id: NodeId, msg: Message, t: Turn, n': Node)
    requires cfg.Valid() && id in Members(cfg) && NodeTraced(cfg, net, n) && OneProposalEach(net)
    requires msg in net && msg.PrepareNet? && Genuine(cfg, net, msg)
    requires t.out == HandlePrepare(For(cfg, id), n.engine, msg) && n' == Node(t.out.engine, n.history)
    ensures TurnTraced(cfg, net + Sent(t), n', t)
  {
    if msg.view == n.engine.view && msg.seqNum in n.engine.log.states {
      PrepareCountedTraced(cfg, net, n, id, msg, t, n');
    } else {
      NodeTracedGrows(cfg, net, net + Sent(t), n);
    }
  }

  lemma PrepareCountedTraced(cfg: Config, net: set<Message>, n: Node, id: NodeId, msg: Message, t: Turn, n': Node)
    requires cfg.Valid() && id in Members(cfg) && NodeTraced(cfg, net, n) && OneProposalEach(net)
    requires msg in net && msg.PrepareNet? && Genuine(cfg, net, msg)
    requires msg.view == n.engine.view && msg.seqNum in n.engine.log.states
    requires t.out == HandlePrepare(For(cfg, id), n.engine, msg) && n' == Node(t.out.engine, n.history)
    ensures TurnTraced(cfg, net + Sent(t), n', t)
  {
    var s, before := msg.seqNum, n.engine.log.states[msg.seqNum];
    assert StateTraced(cfg, net, s, before);
    SameProposal(cfg, net, s, msg.digest, before.block.value);
    VotedTraced(cfg, net, net + Sent(t), before, msg);
    var voted := before.WithPrepare(msg.prepare);
    if voted.IsPrepared(cfg.QuorumSize()) && voted.phase == PrePrepared {
      PreparedTraced(cfg, net, n, id, msg, t, n', voted);
    } else {
      JoinedTraced(cfg, net, n, t, n', voted);
    }
  }

  lemma JoinedTraced(cfg: Config, net: set<Message>, n: Node, t: Turn, n': Node, voted: SeqState)
    requires cfg.Valid() && NodeTraced(cfg, net, n) && StateTraced(cfg, net + Sent(t), voted.seqNum, voted)
    requires t.out.sent == [] && n' == Node(n.engine.(log := n.engine.log.Put(voted)), n.history)
    ensures TurnTraced(cfg, net + Sent(t), n', t)
  {
    PutTraced(cfg, net, net + Sent(t), n, n', voted);
  }

  lemma PreparedTraced(cfg: Config, net: set<Message>, n: Node, id: NodeId, msg: Message, t: Turn, n': Node,
                       voted: SeqState)
    requires cfg.Valid() && id in Members(cfg) && NodeTraced(cfg, net, n)
    requires msg in net && msg.PrepareNet? && Genuine(cfg, net, msg) && msg.seqNum == voted.seqNum
    requires StateTraced(cfg, net + Sent(t), voted.seqNum, voted) && msg.digest == voted.block.value.hash
    requires var vote := CommitVote(msg.seqNum, msg.digest, id);
             && t.out.sent == [vote]
             && var st := voted.(phase := Prepared).WithCommit(vote.commit);
                n' == Node(n.engine.(log := n.engine.log.Put(st)), n.history)
    ensures TurnTraced(cfg, net + Sent(t), n', t)
  {
    var vote, net' := CommitVote(msg.seqNum, msg.digest, id), net + Sent(t);
    assert vote in net';
    GenuineGrows(cfg, net, net', msg);
    OwnCommitTraced(cfg, net', voted, id);
    PutTraced(cfg, net, net', n, n', voted.(phase := Prepared).WithCommit(vote.commit));
  }

  lemma OwnCommitTraced(cfg: Config, net: set<Message>, st: SeqState, id: NodeId)
    requires cfg.Valid() && StateTraced(cfg, net, st.seqNum, st) && id in Members(cfg)
    requires CommitVote(st.seqNum, st.block.value.hash, id) in net
    ensures var own := CommitMsg(0, st.seqNum, st.block.value.hash, id);
            StateTraced(cfg, net, st.seqNum, st.(phase := Prepared).WithCommit(own))
  {
  }

  /** A quorum of traced commits is a quorum of broadcast commits. */
  lemma TracedCommitters(cfg: Config, net: set<Message>, s: nat, st: SeqState)
    requires cfg.Valid() && StateTraced(cfg, net, s, st) && |st.commits| >= cfg.QuorumSize()
    ensures ExecutionTraced(cfg, net, Execution(s, st.block.value))
  {
    Quorum.SubsetSize(st.commits.Keys, Committers(cfg, net, s, st.block.value.hash));
    assert |st.commits.Keys| == |st.commits|;
  }

  lemma ExecuteTraced(cfg: Config, net: set<Message>, n: Node, id: NodeId, st: SeqState, reply: Reply, out: Outcome)
    requires cfg.Valid() && NodeTraced(cfg, net, n)
    requires StateTraced(cfg, net, st.seqNum, st) && |st.commits| >= cfg.QuorumSize()
    requires out == ExecuteBlock(For(cfg, id), n.engine, st, reply)
    ensures NodeTraced(cfg, net, Node(out.engine, n.history + out.executed)) && out.sent == []
  {
    TracedCommitters(cfg, net, st.seqNum, st);
    StatesStayTraced(cfg, net, n, st, out.engine.log);
    forall x <- n.history + out.executed ensures ExecutionTraced(cfg, net, x) {
      if x !in n.history {
        assert x == Execution(st.seqNum, st.block.value);
      }
    }
    ExecuteFilesState(For(cfg, id), n.engine, st, reply);
  }

  lemma ExecuteFilesState(cfg: Config, e: Engine, st: SeqState, reply: Reply)
    requires cfg.Valid()
    ensures FilesState(e.log, st, ExecuteBlock(cfg, e, st, reply).engine.log)
  {
  }

  /** Nothing but `st`, executed or not, is new in the log. */
  ghost predicate FilesState(log: Log, st: SeqState, log': Log) {
    forall s <- log'.states ::
      if s == st.seqNum then log'.states[s] == st || log'.states[s] == st.(executed := true)
      else s in log.states && log'.states[s] == log.states[s]
  }

  lemma StatesStayTraced(cfg: Config, net: set<Message>, n: Node, st: SeqState, log': Log)
    requires cfg.Valid() && NodeTraced(cfg, net, n) && StateTraced(cfg, net, st.seqNum, st)
    ensures FilesState(n.engine.log, st, log') ==>
              forall s <- log'.states :: StateTraced(cfg, net, s, log'.states[s])
  {
    assert StateTraced(cfg, net, st.seqNum, st.(executed := true));
  }

  lemma CommitTraced(cfg: Config, net: set<Message>, n: Node, id: NodeId, msg: Message, reply: Reply, t: Turn, n': Node)
    requires cfg.Valid() && id in Members(cfg) && NodeTraced(cfg, net, n) && OneProposalEach(net)
    requires msg in net && msg.CommitNet? && Genuine(cfg, net, msg)
    requires t.out == HandleCommit(For(cfg, id), n.engine, msg, reply)
    requires n' == Node(t.out.engine, n.history + t.out.executed)
    ensures NodeTraced(cfg, net, n') && t.out.sent == []
  {
    assert n.history + [] == n.history;
    if msg.view == n.engine.view && msg.seqNum in n.engine.log.states {
      var before := n.engine.log.states[msg.seqNum];
      SameProposal(cfg, net, msg.seqNum, msg.digest, before.block.value);
      var st := before.WithCommit(msg.commit);
      assert StateTraced(cfg, net, msg.seqNum, st);
      if st.IsCommitted(cfg.QuorumSize()) && st.phase == Prepared {
        ExecuteTraced(cfg, net, n, id, st.(phase := Committed), reply, t.out);
      } else {
        PutTraced(cfg, net, net, n, n', st);
      }
    }
  }

  lemma QuietTraced(cfg: Config, net: set<Message>, n: Node, t: Turn, n': Node)
    requires cfg.Valid() && NodeTraced(cfg, net, n)
    requires n'.engine.log == n.engine.log && n'.history == n.history
    requires forall m <- t.out.sent :: m.ViewChangeNet? || m.NewViewNet?
    ensures TurnTraced(cfg, net + Sent(t), n', t)
  {
    NodeTracedGrows(cfg, net, net + Sent(t), n);
  }

  lemma DeliveryTraced(cfg: Config, net: set<Message>, n: Node, id: NodeId, t: Turn, n': Node)
    requires cfg.Valid() && id in Members(cfg) && NodeTraced(cfg, net, n)
    requires AllGenuine(cfg, net) && OneProposalEach(net)
    requires TakesTurn(For(cfg, id), n, t, n')
    requires t.ev.Deliver? && t.ev.msg in net && !t.ev.msg.ViewChangeNet? && !t.ev.msg.NewViewNet?
    ensures TurnTraced(cfg, net + Sent(t), n', t)
  {
    assert n.history + [] == n.history;
    var msg := t.ev.msg;
    assert Genuine(cfg, net, msg);
    if msg.PrePrepareNet? {
      PrePrepareTraced(cfg, net, n, id, msg, t.ev.verdict, t, n');
    } else if msg.PrepareNet? {
      PrepareTraced(cfg, net, n, id, msg, t, n');
    } else {
      CommitTraced(cfg, net, n, id, msg, t.ev.reply, t, n');
      assert net + Sent(t) == net;
    }
  }

  /** Turns other than requests propose nothing new; those that stay in view 0 add only view-change messages or
      votes. */
  lemma NonRequestSends(cfg: Config, n: Node, t: Turn, n': Node)
    requires cfg.Valid() && TakesTurn(cfg, n, t, n') && n.engine.view == 0 && n'.engine.view == 0 && !t.ev.Request?
    ensures forall m <- t.out.sent :: !m.PrePrepareNet?
    ensures n'.engine.sequenceNum == n.engine.sequenceNum
    ensures t.ev.Timeout? || t.ev.msg.ViewChangeNet? || t.ev.msg.NewViewNet? ==>
              && n'.engine.log == n.engine.log && n'.history == n.history
              && forall m <- t.out.sent :: m.ViewChangeNet? || m.NewViewNet?
  {
    assert n.history + [] == n.history;
  }

  /** Any turn of a node that stays in view 0. */
  lemma TurnIsTraced(cfg: Config, net: set<Message>, n: Node, id: NodeId, t: Turn, n': Node)
    requires cfg.Valid() && id in Members(cfg) && NodeTraced(cfg, net, n)
    requires AllGenuine(cfg, net) && OneProposalEach(net)
    requires TakesTurn(For(cfg, id), n, t, n') && n.engine.view == 0 && n'.engine.view == 0
    requires t.ev.Deliver? ==> t.ev.msg in net
    requires !t.ev.Request?
    ensures TurnTraced(cfg, net + Sent(t), n', t)
    ensures forall m <- t.out.sent :: !m.PrePrepareNet?
    ensures n'.engine.sequenceNum == n.engine.sequenceNum
  {
    NonRequestSends(For(cfg, id), n, t, n');
    if t.ev.Timeout? || t.ev.msg.ViewChangeNet? || t.ev.msg.NewViewNet? {
      QuietTraced(cfg, net, n, t, n');
    } else {
      DeliveryTraced(cfg, net, n, id, t, n');
    }
  }

  lemma OneMoreProposal(net: set<Message>, sent: seq<Message>, counter: nat, counter': nat)
    requires OneProposalEach(net) && ProposalsCounted(net, counter) && counter <= counter'
    requires forall m <- sent :: m.PrePrepareNet? ==> sent == [m] && m.seqNum == counter + 1 == counter'
    ensures var net' := net + set m <- sent; OneProposalEach(net') && ProposalsCounted(net', counter')
  {
  }

  /** The primary of view 0 alone proposes, with its next number. */
  lemma ProposalsStayCounted(cfg: Config, s: System, a: Act, s': System)
    requires ValidConfig(cfg) && NetInv(cfg, s) && Step(cfg, s, a, s') && AllInView0(s) && AllInView0(s')
    ensures OneProposalEach(s'.net) && ProposalsCounted(s'.net, s'.nodes[cfg.Primary(0)].engine.sequenceNum)
  {
    var n, p := s.nodes[a.id], cfg.Primary(0);
    assert For(cfg, a.id).Primary(0) == p;
    if a.turn.ev.Request? {
      RequestTraced(cfg, s.net, n, a.id, a.turn, s'.nodes[a.id]);
    } else {
      TurnIsTraced(cfg, s.net, n, a.id, a.turn, s'.nodes[a.id]);
    }
    OneMoreProposal(s.net, a.turn.out.sent, s.nodes[p].engine.sequenceNum, s'.nodes[p].engine.sequenceNum);
  }

  lemma OthersTraced(cfg: Config, s: System, s': System, id: NodeId)
    requires cfg.Valid() && s.net <= s'.net && id in s'.nodes && s'.nodes == s.nodes[id := s'.nodes[id]]
    requires NodeTraced(cfg, s'.net, s'.nodes[id]) && forall k <- s.nodes :: NodeTraced(cfg, s.net, s.nodes[k])
    ensures forall k <- s'.nodes :: NodeTraced(cfg, s'.net, s'.nodes[k])
  {
    forall k <- s'.nodes ensures NodeTraced(cfg, s'.net, s'.nodes[k]) {
      if k != id {
        NodeTracedGrows(cfg, s.net, s'.net, s.nodes[k]);
      }
    }
  }

  lemma StepKeepsNetInv(cfg: Config, s: System, a: Act, s': System)
    requires ValidConfig(cfg) && NetInv(cfg, s) && Step(cfg, s, a, s') && AllInView0(s')
    ensures NetInv(cfg, s')
  {
    View0Before(cfg, s, a, s');
    ActorTraced(cfg, s, a, s');
    ProposalsStayCounted(cfg, s, a, s');
    AllStillGenuine(cfg, s.net, a.turn, s'.net);
    OthersTraced(cfg, s, s', a.id);
  }

  lemma ActorTraced(cfg: Config, s: System, a: Act, s': System)
    requires ValidConfig(cfg) && NetInv(cfg, s) && Step(cfg, s, a, s') && AllInView0(s) && AllInView0(s')
    ensures TurnTraced(cfg, s'.net, s'.nodes[a.id], a.turn)
  {
    assert For(cfg, a.id).Primary(0) == cfg.Primary(0);
    if a.turn.ev.Request? {
      RequestTraced(cfg, s.net, s.nodes[a.id], a.id, a.turn, s'.nodes[a.id]);
    } else {
      TurnIsTraced(cfg, s.net, s.nodes[a.id], a.id, a.turn, s'.nodes[a.id]);
    }
  }

  lemma AllStillGenuine(cfg: Config, net: set<Message>, t: Turn, net': set<Message>)
    requires cfg.Valid() && AllGenuine(cfg, net) && net' == net + Sent(t)
    requires forall m <- t.out.sent :: Genuine(cfg, net', m)
    ensures AllGenuine(cfg, net')
  {
    forall m <- net' ensures Genuine(cfg, net', m) {
      if m in net {
        GenuineGrows(cfg, net, net', m);
      }
    }
  }

  lemma {:induction false} NetInvHolds(cfg: Config, states: seq<System>, acts: seq<Act>, i: nat)
    requires ValidConfig(cfg) && IsSystemRun(cfg, states, acts) && i < |states| && AllInView0(states[i])
    ensures NetInv(cfg, states[i])
  {
    if i == 0 {
      assert cfg.validators[0] in cfg.validators;
    } else {
      RunView0Before(cfg, states, acts, i - 1);
      NetInvHolds(cfg, states, acts, i - 1);
      RunKeepsNetInv(cfg, states, acts, i - 1);
    }
  }

  lemma RunView0Before(cfg: Config, states: seq<System>, acts: seq<Act>, i: nat)
    requires cfg.Valid() && IsSystemRun(cfg, states, acts) && i < |acts| && AllInView0(states[i + 1])
    ensures AllInView0(states[i])
  {
    View0Before(cfg, states[i], acts[i], states[i + 1]);
  }

  lemma RunKeepsNetInv(cfg: Config, states: seq<System>, acts: seq<Act>, i: nat)
    requires ValidConfig(cfg) && IsSystemRun(cfg, states, acts) && i < |acts|
    requires NetInv(cfg, states[i]) && AllInView0(states[i + 1])
    ensures NetInv(cfg, states[i + 1])
  {
    StepKeepsNetInv(cfg, states[i], acts[i], states[i + 1]);
  }

  /** Agreement: while the initial view is in force, any two nodes that executed a number executed the same block,
      namely the one the primary broadcast for it. */
  lemma Agreement(cfg: Config, states: seq<System>, acts: seq<Act>, i: nat)
    requires ValidConfig(cfg) && IsSystemRun(cfg, states, acts) && i < |states| && AllInView0(states[i])
    ensures forall p <- states[i].nodes, q <- states[i].nodes ::
              forall x <- states[i].nodes[p].history, y <- states[i].nodes[q].history ::
                x.seqNum == y.seqNum ==> x.block == y.block
    ensures forall p <- states[i].nodes, x <- states[i].nodes[p].history ::
              Proposal(cfg, x.seqNum, x.block) in states[i].net
  {
    NetInvHolds(cfg, states, acts, i);
    var s := states[i];
    forall p <- s.nodes, q <- s.nodes, x <- s.nodes[p].history, y <- s.nodes[q].history | x.seqNum == y.seqNum
      ensures x.block == y.block
    {
      assert ExecutionTraced(cfg, s.net, x) && ExecutionTraced(cfg, s.net, y);
    }
  }

  /** Some state of node `id` up to i held prepares for (seqNum, digest) from a quorum of members. */
  ghost predicate HadPrepared(cfg: Config, states: seq<System>, i: nat, id: NodeId, seqNum: nat, digest: Bytes)
    requires i < |states|
  {
    exists j | 0 <= j <= i :: PreparedAt(cfg, states[j], id, seqNum, digest)
  }

  ghost predicate PreparedAt(cfg: Config, s: System, id: NodeId, seqNum: nat, digest: Bytes) {
    && id in s.nodes && seqNum in s.nodes[id].engine.log.states
    && var prepares := s.nodes[id].engine.log.states[seqNum].prepares;
    && |prepares| >= cfg.QuorumSize()
    && forall v <- prepares :: v in Members(cfg) && prepares[v].digest == digest
  }

  /** Only handlePrepare broadcasts a commit, and only for a prepared state. */
  lemma WhoSendsCommits(cfg: Config, e: Engine, ev: Event, out: Outcome, m: Message)
    requires cfg.Valid() && Next(cfg, e, ev, out) && m in out.sent && m.CommitNet?
    ensures ev.Deliver? && ev.msg.PrepareNet? && out.sent == [m]
    ensures m.nodeId == cfg.nodeId && m.seqNum == ev.msg.seqNum
    ensures m.commit == CommitMsg(m.view, m.seqNum, m.digest, m.nodeId)
    ensures m.seqNum in e.log.states && e.log.states[m.seqNum].seqNum == m.seqNum ==>
              && m.seqNum in out.engine.log.states
              && |out.engine.log.states[m.seqNum].prepares| >= cfg.QuorumSize()
              && m.nodeId in out.engine.log.states[m.seqNum].commits
              && out.engine.log.states[m.seqNum].commits[m.nodeId] == m.commit
  {
  }

  lemma CommitSentWhenPrepared(cfg: Config, s: System, a: Act, s': System, m: Message)
    requires ValidConfig(cfg) && NetInv(cfg, s) && Step(cfg, s, a, s') && NetInv(cfg, s')
    requires m in s'.net && m !in s.net && m.CommitNet?
    ensures PreparedAt(cfg, s', m.nodeId, m.seqNum, m.digest)
  {
    var e, n' := s.nodes[a.id].engine, s'.nodes[a.id];
    WhoSendsCommits(For(cfg, a.id), e, a.turn.ev, a.turn.out, m);
    assert e.log.states[m.seqNum].seqNum == m.seqNum by {
      SentForTracked(For(cfg, a.id), e, a.turn, m);
      assert NodeTraced(cfg, s.net, s.nodes[a.id]);
      assert StateTraced(cfg, s.net, m.seqNum, e.log.states[m.seqNum]);
    }
    assert NodeTraced(cfg, s'.net, n');
    assert StateTraced(cfg, s'.net, m.seqNum, n'.engine.log.states[m.seqNum]);
  }

  lemma SentForTracked(cfg: Config, e: Engine, t: Turn, m: Message)
    requires cfg.Valid() && t.ev.Deliver? && t.ev.msg.PrepareNet? && t.out == HandlePrepare(cfg, e, t.ev.msg)
    requires m in t.out.sent
    ensures m.seqNum in e.log.states
  {
  }

  /** Every commit in the message set was sent by a node that had a quorum of matching prepares. */
  lemma {:induction false} CommitsArePrepared(cfg: Config, states: seq<System>, acts: seq<Act>, i: nat, m: Message)
    requires ValidConfig(cfg) && IsSystemRun(cfg, states, acts) && i < |states| && AllInView0(states[i])
    requires m in states[i].net && m.CommitNet?
    ensures HadPrepared(cfg, states, i, m.nodeId, m.seqNum, m.digest)
  {
    if i > 0 {
      assert Step(cfg, states[i - 1], acts[i - 1], states[i]);
      View0Before(cfg, states[i - 1], acts[i - 1], states[i]);
      if m in states[i - 1].net {
        CommitsArePrepared(cfg, states, acts, i - 1, m);
      } else {
        NetInvHolds(cfg, states, acts, i - 1);
        NetInvHolds(cfg, states, acts, i);
        CommitSentWhenPrepared(cfg, states[i - 1], acts[i - 1], states[i], m);
      }
    }
  }

  /** Execution certificate: behind every execution there are commits, broadcast by a quorum of distinct members,
      each of which had collected prepares with that very digest from a quorum of distinct members. */
  lemma ExecutionCertificate(cfg: Config, states: seq<System>, acts: seq<Act>, i: nat, id: NodeId, x: Execution)
    requires ValidConfig(cfg) && IsSystemRun(cfg, states, acts) && i < |states| && AllInView0(states[i])
    requires id in states[i].nodes && x in states[i].nodes[id].history
    ensures |Committers(cfg, states[i].net, x.seqNum, x.block.hash)| >= cfg.QuorumSize()
    ensures forall c <- Committers(cfg, states[i].net, x.seqNum, x.block.hash) ::
              HadPrepared(cfg, states, i, c, x.seqNum, x.block.hash)
  {
    NetInvHolds(cfg, states, acts, i);
    assert ExecutionTraced(cfg, states[i].net, x);
    forall c <- Committers(cfg, states[i].net, x.seqNum, x.block.hash)
      ensures HadPrepared(cfg, states, i, c, x.seqNum, x.block.hash)
    {
      CommitsArePrepared(cfg, states, acts, i, CommitVote(x.seqNum, x.block.hash, c));
    }
  }
}
