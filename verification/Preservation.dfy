/** Preservation across view changes, in every run of the network and in every view. */
module Preservation {
  import opened Types
  import opened Messages
  import opened StateLogs
  import opened ViewChangeRules
  import opened EngineRules
  import opened NodeRuns
  import opened Network

  /** The one envelope a vote travels in. */
  ghost function Wrap(vote: ViewChangeMsg): Message {
    ViewChangeNet(vote.newView, vote.lastSeqNum, vote.nodeId, vote)
  }

  /** A NEW-VIEW put together from broadcast votes of a quorum of distinct members. */
  ghost predicate Built(cfg: Config, net: set<Message>, msg: NewViewMsg) {
    && |msg.votes| >= cfg.QuorumSize()
    && DistinctSenders(msg.votes)
    && (forall v <- msg.votes :: v.nodeId in Members(cfg) && v.newView == msg.view && Wrap(v) in net)
    && msg.prePrepares == PrePrepareSet(msg.votes)
  }

  ghost predicate VotesGenuine(cfg: Config, net: set<Message>) {
    forall m <- net ::
      && (m.ViewChangeNet? ==> m == Wrap(m.viewChange) && m.nodeId in Members(cfg))
      && (m.NewViewNet? ==> Built(cfg, net, m.newView))
  }

  /** A node leaves view 0 only with a stored message that justifies its view. */
  ghost predicate ViewBacked(cfg: Config, net: set<Message>, e: Engine) {
    e.view > 0 ==>
      && e.view in e.manager.newViews
      && e.manager.newViews[e.view].view == e.view
      && Built(cfg, net, e.manager.newViews[e.view])
  }

  /** The stored votes were broadcast, and every tracked state is filed under its own number. */
  ghost predicate TableTraced(cfg: Config, net: set<Message>, id: NodeId, e: Engine) {
    && e.manager.quorum == cfg.QuorumSize() && e.manager.nodeId == id
    && ViewBacked(cfg, net, e)
    && e.manager.VotesFiled()
    && (forall v <- e.manager.votes, k <- e.manager.votes[v] :: k in Members(cfg) && Wrap(e.manager.votes[v][k]) in net)
    && Keyed(e.log)
  }

  ghost predicate VoteInv(cfg: Config, s: System) {
    && s.nodes.Keys == Members(cfg)
    && VotesGenuine(cfg, s.net)
    && forall id <- s.nodes :: TableTraced(cfg, s.net, id, s.nodes[id].engine)
  }

  lemma TableGrows(cfg: Config, net: set<Message>, net': set<Message>, id: NodeId, e: Engine)
    requires TableTraced(cfg, net, id, e) && net <= net'
    ensures TableTraced(cfg, net', id, e)
  {
  }

  lemma RecordTraced(cfg: Config, net: set<Message>, id: NodeId, e: Engine, vote: ViewChangeMsg, inProgress: bool)
    requires TableTraced(cfg, net, id, e) && Wrap(vote) in net && vote.nodeId in Members(cfg)
    ensures TableTraced(cfg, net, id, e.(manager := e.manager.(inProgress := inProgress).Record(vote)))
  {
    var m, m' := e.manager, e.manager.(inProgress := inProgress).Record(vote);
    forall v <- m'.votes, k <- m'.votes[v]
      ensures k in Members(cfg) && Wrap(m'.votes[v][k]) in net
    {
      if v != vote.newView || k != vote.nodeId {
        assert v in m.votes && k in m.votes[v] && m'.votes[v][k] == m.votes[v][k];
      }
    }
  }

  lemma VoteKeyed(cfg: Config, e: Engine, msg: Message, reply: Reply)
    requires cfg.Valid() && Keyed(e.log)
    ensures msg.PrepareNet? ==> Keyed(HandlePrepare(cfg, e, msg).engine.log)
    ensures msg.CommitNet? ==> Keyed(HandleCommit(cfg, e, msg, reply).engine.log)
  {
  }

  lemma ProposalKeyed(cfg: Config, e: Engine, ev: Event, out: Outcome)
    requires cfg.Valid() && Keyed(e.log) && Next(cfg, e, ev, out)
    requires ev.Request? || (ev.Deliver? && ev.msg.PrePrepareNet?)
    ensures Keyed(out.engine.log)
  {
  }

  lemma NormalKeyed(cfg: Config, e: Engine, ev: Event, out: Outcome)
    requires cfg.Valid() && Keyed(e.log) && Next(cfg, e, ev, out)
    requires ev.Request? || (ev.Deliver? && !ev.msg.ViewChangeNet? && !ev.msg.NewViewNet?)
    ensures Keyed(out.engine.log)
  {
    if ev.Request? || ev.msg.PrePrepareNet? {
      ProposalKeyed(cfg, e, ev, out);
    } else {
      VoteKeyed(cfg, e, ev.msg, ev.reply);
    }
  }

  /** Handlers that do not touch the vote table. */
  lemma NormalTraced(cfg: Config, net: set<Message>, id: NodeId, e: Engine, ev: Event, out: Outcome)
    requires cfg.Valid() && TableTraced(cfg, net, id, e) && Next(For(cfg, id), e, ev, out)
    requires ev.Request? || (ev.Deliver? && !ev.msg.ViewChangeNet? && !ev.msg.NewViewNet?)
    ensures TableTraced(cfg, net, id, out.engine)
    ensures forall m <- out.sent :: !m.ViewChangeNet? && !m.NewViewNet?
  {
    NormalCaseKeepsManager(For(cfg, id), e, ev, out);
    NormalKeyed(For(cfg, id), e, ev, out);
  }

  lemma TimeoutTraced(cfg: Config, net: set<Message>, id: NodeId, e: Engine, out: Outcome)
    requires cfg.Valid() && TableTraced(cfg, net, id, e) && id in Members(cfg)
    requires StartViewChange(For(cfg, id), e, out)
    ensures var net' := net + set m <- out.sent;
            TableTraced(cfg, net', id, out.engine)
    ensures forall m <- out.sent :: m.ViewChangeNet? && m == Wrap(m.viewChange) && m.nodeId == id
  {
    var net' := net + set m <- out.sent;
    TableGrows(cfg, net, net', id, e);
    if out.sent != [] {
      var vote := out.sent[0].viewChange;
      assert out.sent[0] in net';
      RecordTraced(cfg, net', id, e, vote, true);
    }
  }

  lemma NewViewTraced(cfg: Config, net: set<Message>, id: NodeId, e: Engine, msg: Message, out: Outcome)
    requires cfg.Valid() && TableTraced(cfg, net, id, e) && msg.NewViewNet? && Built(cfg, net, msg.newView)
    requires out == HandleNewView(For(cfg, id), e, msg)
    ensures TableTraced(cfg, net, id, out.engine)
    ensures forall m <- out.sent :: m.PrepareNet?
  {
    ReprocessAt(e.log, msg.newView.prePrepares, msg.newView.view, 0);
  }

  lemma BuiltFromTable(cfg: Config, net: set<Message>, id: NodeId, e: Engine, msg: NewViewMsg)
    requires TableTraced(cfg, net, id, e)
    requires |e.manager.Table(msg.view)| >= e.manager.quorum
    requires Lists(msg.votes, e.manager.Table(msg.view)) && msg == BuildNewView(msg.view, msg.votes, e.manager.nodeId)
    ensures Built(cfg, net, msg)
  {
  }

  /** The new primary's own adoption. */
  lemma BroadcastTraced(cfg: Config, net: set<Message>, id: NodeId, e: Engine, newView: nat, out: Outcome)
    requires TableTraced(cfg, net, id, e) && |e.manager.Table(newView)| >= e.manager.quorum
    requires BroadcastNewView(For(cfg, id), e, newView, out)
    ensures TableTraced(cfg, net, id, out.engine)
    ensures forall m <- out.sent :: m.NewViewNet? && Built(cfg, net, m.newView)
  {
    BuiltFromTable(cfg, net, id, e, out.sent[0].newView);
  }

  lemma VoteDeliveredTraced(cfg: Config, net: set<Message>, id: NodeId, e: Engine, msg: Message, out: Outcome)
    requires cfg.Valid() && TableTraced(cfg, net, id, e) && VotesGenuine(cfg, net)
    requires msg in net && msg.ViewChangeNet? && HandleViewChange(For(cfg, id), e, msg, out)
    ensures TableTraced(cfg, net, id, out.engine)
    ensures forall m <- out.sent :: m.NewViewNet? && Built(cfg, net, m.newView)
  {
    var vote := msg.viewChange;
    if vote.newView > e.view {
      assert e.manager.(inProgress := e.manager.inProgress) == e.manager;
      RecordTraced(cfg, net, id, e, vote, e.manager.inProgress);
      var recorded := e.(manager := e.manager.Record(vote));
      if |recorded.manager.Table(vote.newView)| >= recorded.manager.quorum
         && For(cfg, id).Primary(vote.newView) == id {
        BroadcastTraced(cfg, net, id, recorded, vote.newView, out);
      }
    }
  }

  lemma TurnKeepsTable(cfg: Config, net: set<Message>, n: Node, id: NodeId, t: Turn, n': Node)
    requires cfg.Valid() && id in Members(cfg) && TableTraced(cfg, net, id, n.engine) && VotesGenuine(cfg, net)
    requires TakesTurn(For(cfg, id), n, t, n') && (t.ev.Deliver? ==> t.ev.msg in net)
    ensures TableTraced(cfg, net + Sent(t), id, n'.engine)
    ensures forall m <- t.out.sent ::
              && (m.ViewChangeNet? ==> m == Wrap(m.viewChange) && m.nodeId in Members(cfg))
              && (m.NewViewNet? ==> Built(cfg, net, m.newView))
  {
    var e, out := n.engine, t.out;
    if t.ev.Timeout? {
      TimeoutTraced(cfg, net, id, e, out);
    } else if t.ev.Deliver? && t.ev.msg.ViewChangeNet? {
      VoteDeliveredTraced(cfg, net, id, e, t.ev.msg, out);
    } else if t.ev.Deliver? && t.ev.msg.NewViewNet? {
      NewViewTraced(cfg, net, id, e, t.ev.msg, out);
    } else {
      NormalTraced(cfg, net, id, e, t.ev, out);
    }
    if !t.ev.Timeout? {
      TableGrows(cfg, net, net + Sent(t), id, out.engine);
    }
  }

  lemma StepKeepsVoteInv(cfg: Config, s: System, a: Act, s': System)
    requires cfg.Valid() && VoteInv(cfg, s) && Step(cfg, s, a, s')
    ensures VoteInv(cfg, s')
  {
    TurnKeepsTable(cfg, s.net, s.nodes[a.id], a.id, a.turn, s'.nodes[a.id]);
    forall id <- s'.nodes ensures TableTraced(cfg, s'.net, id, s'.nodes[id].engine) {
      if id != a.id {
        TableGrows(cfg, s.net, s'.net, id, s.nodes[id].engine);
      }
    }
  }

  lemma {:induction false} VoteInvHolds(cfg: Config, states: seq<System>, acts: seq<Act>, i: nat)
    requires cfg.Valid() && IsSystemRun(cfg, states, acts) && i < |states|
    ensures VoteInv(cfg, states[i])
  {
    if i > 0 {
      VoteInvHolds(cfg, states, acts, i - 1);
      RunKeepsVoteInv(cfg, states, acts, i - 1);
    }
  }

  lemma RunKeepsVoteInv(cfg: Config, states: seq<System>, acts: seq<Act>, i: nat)
    requires cfg.Valid() && IsSystemRun(cfg, states, acts) && i < |acts| && VoteInv(cfg, states[i])
    ensures VoteInv(cfg, states[i + 1])
  {
    StepKeepsVoteInv(cfg, states[i], acts[i], states[i + 1]);
  }

  /** In every run, a node in a later view holds a NEW-VIEW for it whose votes were broadcast, for that view, by a
      quorum of distinct members. */
  lemma ViewsAreVotedIn(cfg: Config, states: seq<System>, acts: seq<Act>, i: nat, id: NodeId)
    requires cfg.Valid() && IsSystemRun(cfg, states, acts) && i < |states| && id in states[i].nodes
    requires states[i].nodes[id].engine.view > 0
    ensures var e := states[i].nodes[id].engine;
            && e.view in e.manager.newViews
            && var votes := e.manager.newViews[e.view].votes;
            && (forall v <- votes :: v.newView == e.view && Wrap(v) in states[i].net)
            && Senders(votes) <= Members(cfg) && |Senders(votes)| >= cfg.QuorumSize()
  {
    VoteInvHolds(cfg, states, acts, i);
    var e := states[i].nodes[id].engine;
    assert TableTraced(cfg, states[i].net, id, e);
    SendersCount(e.manager.newViews[e.view].votes);
  }

  /** Every vote that a member of `reporters` broadcast for `view` reports (seqNum, digest) prepared. */
  ghost predicate AllReport(net: set<Message>, view: nat, reporters: set<NodeId>, seqNum: nat, digest: Bytes) {
    forall m <- net :: m.ViewChangeNet? && m.viewChange.newView == view && m.nodeId in reporters ==>
      VoteReports(m.viewChange, seqNum, digest)
  }

  /** Preservation in every run: if a quorum of members report (seqNum, digest) prepared in all their votes for a
      view, every acceptable NEW-VIEW that was broadcast for it re-proposes seqNum with that digest or carries a
      checkpoint at or above it. */
  lemma PreservedInEveryRun(cfg: Config, states: seq<System>, acts: seq<Act>, i: nat, m: Message,
                            reporters: set<NodeId>, seqNum: nat, digest: Bytes)
    requires ValidConfig(cfg) && IsSystemRun(cfg, states, acts) && i < |states|
    requires 2 * cfg.QuorumSize() > |cfg.validators|
    requires m in states[i].net && m.NewViewNet? && Acceptable(m.newView, cfg.QuorumSize())
    requires reporters <= Members(cfg) && |reporters| >= cfg.QuorumSize() && seqNum > 0
    requires AllReport(states[i].net, m.newView.view, reporters, seqNum, digest)
    ensures Preserves(m.newView, seqNum, digest)
  {
    VoteInvHolds(cfg, states, acts, i);
    MembersCount(cfg.validators);
    var votes := m.newView.votes;
    assert Built(cfg, states[i].net, m.newView);
    forall v <- votes | v.nodeId in reporters ensures VoteReports(v, seqNum, digest) {
      assert Wrap(v) in states[i].net;
    }
    ReportedIsPreserved(m.newView, cfg.QuorumSize(), Members(cfg), reporters, seqNum, digest);
  }

  /** The re-proposed number is pre-prepared in the new view with the reported digest. */
  ghost predicate Installed(e: Engine, view: nat, seqNum: nat, digest: Bytes) {
    && e.view == view
    && seqNum in e.log.states
    && e.log.states[seqNum].phase == PrePrepared
    && e.log.states[seqNum].prePrepare.Some?
    && e.log.states[seqNum].prePrepare.value.digest == digest
    && e.log.states[seqNum].prePrepare.value.view == view
  }

  lemma AcceptedIsInstalled(cfg: Config, e: Engine, msg: Message, out: Outcome, seqNum: nat, digest: Bytes)
    requires cfg.Valid() && msg.NewViewNet? && out == HandleNewView(cfg, e, msg) && Adopts(cfg, e, msg.newView)
    requires Keyed(e.log)
    requires Proposes(msg.newView.prePrepares, seqNum)
    requires forall pp <- msg.newView.prePrepares :: pp.seqNum == seqNum ==> pp.digest == digest
    ensures Installed(out.engine, msg.newView.view, seqNum, digest)
  {
    var nv := msg.newView;
    assert LastProposal(nv.prePrepares, seqNum).Some?;
    ReprocessAt(e.log, nv.prePrepares, nv.view, seqNum);
  }

  /** What preservation means at a node that accepts the message: the number is pre-prepared in the new view with
      the reported digest, unless a checkpoint covers it. */
  lemma PreservedAtReceiver(cfg: Config, states: seq<System>, acts: seq<Act>, i: nat, reporters: set<NodeId>,
                            seqNum: nat, digest: Bytes)
    requires ValidConfig(cfg) && IsSystemRun(cfg, states, acts) && i < |acts|
    requires 2 * cfg.QuorumSize() > |cfg.validators|
    requires acts[i].id in states[i].nodes && acts[i].id in states[i + 1].nodes
    requires Installs(For(cfg, acts[i].id), states[i].nodes[acts[i].id], acts[i].turn)
    requires reporters <= Members(cfg) && |reporters| >= cfg.QuorumSize() && seqNum > 0
    requires AllReport(states[i].net, acts[i].turn.ev.msg.newView.view, reporters, seqNum, digest)
    ensures var nv := acts[i].turn.ev.msg.newView;
            || (exists v <- nv.votes :: exists c <- v.checkpoints :: c.seqNum >= seqNum)
            || Installed(states[i + 1].nodes[acts[i].id].engine, nv.view, seqNum, digest)
  {
    var a := acts[i];
    var msg := a.turn.ev.msg;
    assert Step(cfg, states[i], a, states[i + 1]);
    VoteInvHolds(cfg, states, acts, i);
    AcceptanceChecked(cfg, states[i], a, states[i + 1]);
    PreservedInEveryRun(cfg, states, acts, i, msg, reporters, seqNum, digest);
    if Proposes(msg.newView.prePrepares, seqNum)
       && forall pp <- msg.newView.prePrepares :: pp.seqNum == seqNum ==> pp.digest == digest {
      AcceptedIsInstalled(For(cfg, a.id), states[i].nodes[a.id].engine, msg, a.turn.out, seqNum, digest);
    }
  }

  lemma AcceptanceChecked(cfg: Config, s: System, a: Act, s': System)
    requires cfg.Valid() && VoteInv(cfg, s) && Step(cfg, s, a, s') && Installs(For(cfg, a.id), s.nodes[a.id], a.turn)
    ensures Acceptable(a.turn.ev.msg.newView, cfg.QuorumSize())
    ensures a.turn.ev.msg.newView.prePrepares == PrePrepareSet(a.turn.ev.msg.newView.votes)
    ensures Keyed(s.nodes[a.id].engine.log)
    ensures a.turn.out == HandleNewView(For(cfg, a.id), s.nodes[a.id].engine, a.turn.ev.msg)
    ensures s'.nodes[a.id].engine == a.turn.out.engine
  {
    assert TableTraced(cfg, s.net, a.id, s.nodes[a.id].engine);
    assert Built(cfg, s.net, a.turn.ev.msg.newView);
  }
}
