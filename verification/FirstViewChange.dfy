/** The first view change: out of the normal case of view 0, every NEW-VIEW is accepted by every node. */
module FirstViewChange {
  import opened Types
  import opened Messages
  import opened ViewChangeRules
  import opened EngineRules
  import opened NodeRuns
  import opened Network
  import opened Preservation

  /** Every certificate of the vote is for a digest that was proposed for its number. */
  ghost predicate CertsTraced(cfg: Config, net: set<Message>, vote: ViewChangeMsg)
    requires cfg.Valid()
  {
    forall c <- vote.preparedSet :: Proposed(cfg, net, c.prePrepare.seqNum, c.prePrepare.digest)
  }

  ghost predicate VotesTraced(cfg: Config, net: set<Message>)
    requires cfg.Valid()
  {
    forall m <- net :: m.ViewChangeNet? ==> CertsTraced(cfg, net, m.viewChange)
  }

  lemma CertsTracedGrows(cfg: Config, net: set<Message>, net': set<Message>, vote: ViewChangeMsg)
    requires cfg.Valid() && CertsTraced(cfg, net, vote) && net <= net'
    ensures CertsTraced(cfg, net', vote)
  {
  }

  lemma OwnVoteTraced(cfg: Config, net: set<Message>, n: Node, id: NodeId, vote: ViewChangeMsg)
    requires cfg.Valid() && NodeTraced(cfg, net, n) && IsVote(For(cfg, id), n.engine, vote)
    ensures CertsTraced(cfg, net, vote)
  {
    forall c <- vote.preparedSet ensures Proposed(cfg, net, c.prePrepare.seqNum, c.prePrepare.digest) {
      var s := c.prePrepare.seqNum;
      assert IsCertOf(n.engine.view, n.engine.log, c);
      assert StateTraced(cfg, net, s, n.engine.log.states[s]);
      assert Proposal(cfg, s, n.engine.log.states[s].block.value) in net;
    }
  }

  /** Only a timeout sends a vote. */
  lemma WhoSendsVotes(cfg: Config, e: Engine, ev: Event, out: Outcome, m: Message)
    requires cfg.Valid() && Next(cfg, e, ev, out) && m in out.sent && m.ViewChangeNet?
    ensures ev.Timeout? && IsVote(cfg, e, m.viewChange)
  {
  }

  lemma {:induction false} VotesTracedHolds(cfg: Config, states: seq<System>, acts: seq<Act>, i: nat)
    requires ValidConfig(cfg) && IsSystemRun(cfg, states, acts) && i < |states| && AllInView0(states[i])
    ensures VotesTraced(cfg, states[i].net)
  {
    if i > 0 {
      var s, a, s' := states[i - 1], acts[i - 1], states[i];
      assert Step(cfg, s, a, s');
      View0Before(cfg, s, a, s');
      VotesTracedHolds(cfg, states, acts, i - 1);
      NetInvHolds(cfg, states, acts, i - 1);
      StepKeepsVotesTraced(cfg, s, a, s');
    }
  }

  lemma StepKeepsVotesTraced(cfg: Config, s: System, a: Act, s': System)
    requires cfg.Valid() && NetInv(cfg, s) && VotesTraced(cfg, s.net) && Step(cfg, s, a, s')
    ensures VotesTraced(cfg, s'.net)
  {
    forall m <- s'.net | m.ViewChangeNet? ensures CertsTraced(cfg, s'.net, m.viewChange) {
      if m !in s.net {
        WhoSendsVotes(For(cfg, a.id), s.nodes[a.id].engine, a.turn.ev, a.turn.out, m);
        OwnVoteTraced(cfg, s.net, s.nodes[a.id], a.id, m.viewChange);
      }
      CertsTracedGrows(cfg, s.net, s'.net, m.viewChange);
    }
  }

  /** Where no number was proposed twice, certificates for proposed digests cannot conflict. */
  lemma TracedIsConsistent(cfg: Config, net: set<Message>, votes: seq<ViewChangeMsg>)
    requires cfg.Valid() && OneProposalEach(net) && forall v <- votes :: CertsTraced(cfg, net, v)
    ensures Consistent(Certs(votes))
  {
    CertsMembers(votes);
    forall a <- Certs(votes), b <- Certs(votes) | a.prePrepare.seqNum == b.prePrepare.seqNum
      ensures a.prePrepare.digest == b.prePrepare.digest
    {
      assert Proposed(cfg, net, a.prePrepare.seqNum, a.prePrepare.digest);
      assert Proposed(cfg, net, b.prePrepare.seqNum, b.prePrepare.digest);
    }
  }

  /** Every NEW-VIEW sent while the initial view is in force passes the check of every node and names the right
      primary, so every node that receives it before moving on adopts it: the builder never meets a conflict. */
  lemma {:induction false} FirstNewViewIsAdopted(cfg: Config, states: seq<System>, acts: seq<Act>, i: nat,
                                                 m: Message, id: NodeId)
    requires ValidConfig(cfg) && IsSystemRun(cfg, states, acts) && i < |acts| && AllInView0(states[i])
    requires m in acts[i].turn.out.sent && m.NewViewNet? && id in states[i].nodes
    ensures Adopts(For(cfg, id), states[i].nodes[id].engine, m.newView)
  {
    VotesTracedHolds(cfg, states, acts, i);
    NetInvHolds(cfg, states, acts, i);
    VoteInvHolds(cfg, states, acts, i);
    VoteInvHolds(cfg, states, acts, i + 1);
    SentIsAdopted(cfg, states[i], acts[i], states[i + 1], m, id);
  }

  lemma SentIsAdopted(cfg: Config, s: System, a: Act, s': System, m: Message, id: NodeId)
    requires cfg.Valid() && Step(cfg, s, a, s') && AllInView0(s) && OneProposalEach(s.net) && VotesTraced(cfg, s.net)
    requires VoteInv(cfg, s) && VoteInv(cfg, s')
    requires m in a.turn.out.sent && m.NewViewNet? && id in s.nodes
    ensures Adopts(For(cfg, id), s.nodes[id].engine, m.newView)
  {
    WhoSendsNewViews(For(cfg, a.id), s.nodes[a.id].engine, a.turn.ev, a.turn.out, m);
    assert m in s'.net && Built(cfg, s'.net, m.newView);
    forall v <- m.newView.votes ensures CertsTraced(cfg, s.net, v) {
      assert Wrap(v) in s'.net;
    }
    TracedIsConsistent(cfg, s.net, m.newView.votes);
    ConsistentIsAcceptable(m.newView, cfg.QuorumSize());
    assert TableTraced(cfg, s.net, id, s.nodes[id].engine);
  }

  /** Only the primary of the view sends a NEW-VIEW, alone and for a later view than its own. */
  lemma WhoSendsNewViews(cfg: Config, e: Engine, ev: Event, out: Outcome, m: Message)
    requires cfg.Valid() && Next(cfg, e, ev, out) && m in out.sent && m.NewViewNet? && e.manager.nodeId == cfg.nodeId
    ensures out.sent == [m] && m.newView.view > e.view
    ensures m.newView.newPrimaryId == cfg.nodeId == cfg.Primary(m.newView.view)
  {
  }
}
